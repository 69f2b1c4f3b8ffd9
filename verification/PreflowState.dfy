/** The state between two steps of the preflow-push code as a value: its invariant, what one push and
    one relabel make of it, and the measure that drives termination. */
module PreflowState {
  import opened Sums
  import opened FlowNetwork
  import opened Labels

  /** static_cast<int> of an unsigned 64-bit value. */
  function AsInt(x: int): int {
    var low := x % 0x1_0000_0000;
    if low > INT_MAX then low - 0x1_0000_0000 else low
  }

  /** The cast gives the 32-bit value that agrees with x in its low 32 bits. */
  lemma AsIntIsCast(x: int)
    ensures -2147483648 <= AsInt(x) <= 2147483647 && (x - AsInt(x)) % 4294967296 == 0
  {
  }

  /** The amount one push moves. */
  function PushAmount(excess: int, cap: int): int {
    if AsInt(excess) < cap then AsInt(excess) else cap
  }

  function Min(a: int, b: int): int { if a < b then a else b }

  /** The narrowing cast is harmless exactly when the excess fits in an int, or its low half is
      still a non-negative int that covers the capacity. */
  lemma PushAmountExact(excess: int, cap: int)
    requires 0 <= excess && 0 <= cap <= INT_MAX
    ensures PushAmount(excess, cap) == Min(excess, cap)
       <==> excess <= INT_MAX || cap <= excess % 0x1_0000_0000 <= INT_MAX
  {
  }

  ghost function CapacityFromSource(net: Network): int {
    Sum(net.n, Row(CapacityOf(net), net.source))
  }
  ghost function CapacityInto(net: Network, v: nat): int {
    Sum(net.n, Column(CapacityOf(net), v))
  }

  /** The nodes that can get on the worklist: the inner ones, and the sink if the source has an edge
      to it. */
  ghost predicate MayDischarge(net: Network, u: nat) {
    u < net.n && u != net.source && (u == net.sink ==> At(net.capacity, net.source, net.sink) > 0)
  }

  /** No excess that is discharged can outgrow an int: either all of it put together fits, or what can
      flow into each node does. */
  ghost predicate ExcessFits(net: Network) {
    forall v: nat | MayDischarge(net, v) ::
      CapacityFromSource(net) <= INT_MAX || CapacityInto(net, v) <= INT_MAX
  }

  /** That is so whenever the source's edges together fit. */
  lemma SourceFits(net: Network)
    requires CapacityFromSource(net) <= INT_MAX
    ensures ExcessFits(net)
  {
  }

  lemma ExcessIsBounded(net: Network, cap: map<Edge, int>, excess: seq<int>, v: nat)
    requires Valid(net) && IsPreflow(net, cap, excess) && SourceSaturated(net, cap)
    requires v < net.n && v != net.source
    ensures excess[v] <= CapacityFromSource(net) && excess[v] <= CapacityInto(net, v)
  {
    var f := FlowOf(net, cap);
    forall x: nat, y: nat | x < net.n && y < net.n ensures f(x, y) == -f(y, x) && f(x, y) <= CapacityOf(net)(x, y) {
      assert At(cap, x, y) + At(cap, y, x) == At(net.capacity, x, y) + At(net.capacity, y, x);
      assert 0 <= At(cap, x, y);
    }
    SumLe(net.n, Column(f, v), Column(CapacityOf(net), v));
    AntisymmetricSum(net.n, f);
    var held := (x: nat) => if x < |excess| then excess[x] else 0;
    forall x: nat | x < net.n && x != net.source ensures held(x) == ColumnSums(f, net.n)(x) {
      assert excess[x] == NetInto(net, cap, x);
    }
    SumPoint(net.n, ColumnSums(f, net.n), held, net.source, -NetInto(net, cap, net.source));
    SumNonNegative(net.n, held);
    SumPlus(net.n, Column(f, net.source), Row(CapacityOf(net), net.source), (i: nat) => 0) by {
      assert forall w: nat :: At(cap, net.source, w) == 0;
      assert forall i: nat | i < net.n :: f(i, net.source) == -f(net.source, i);
    }
    SumZero(net.n, (i: nat) => 0);
    assert held(v) <= Sum(net.n, held);
    assert excess[v] == NetInto(net, cap, v);
  }

  /** Edge data, the three node fields, and the discharge worklist. */
  datatype State = State(cap: map<Edge, int>, excess: seq<int>, height: seq<int>, current: seq<int>, bag: multiset<nat>)

  ghost predicate HasShape(net: Network, s: State) {
    Valid(net) && |net.adj| == |s.excess| == |s.height| == |s.current| == net.n
  }

  ghost predicate Inner(net: Network, u: nat) {
    u < net.n && u != net.source && u != net.sink
  }

  /** Everything that holds between any two discharges, worklist aside: the laws of the flow ... */
  ghost predicate FlowLaws(net: Network, cap: map<Edge, int>, excess: seq<int>) {
    IsPreflow(net, cap, excess) && SourceSaturated(net, cap)
  }

  /** ... and of the labels and cursors. */
  ghost predicate LabelLaws(net: Network, cap: map<Edge, int>, height: seq<int>, current: seq<int>) {
    ValidLabels(net, cap, height) && ArcsBehindCursor(net, cap, height, current)
  }

  ghost predicate Consistent(net: Network, s: State) {
    HasShape(net, s) && FlowLaws(net, s.cap, s.excess) && LabelLaws(net, s.cap, s.height, s.current)
  }

  /** A node that a discharge does not just drop. */
  ghost predicate Live(net: Network, excess: seq<int>, height: seq<int>, u: nat)
    requires |excess| == |height| == net.n
  {
    MayDischarge(net, u) && excess[u] > 0 && height[u] < net.n
  }

  ghost predicate Active(net: Network, excess: seq<int>, height: seq<int>, u: nat)
    requires |excess| == |height| == net.n
  {
    Inner(net, u) && excess[u] > 0 && height[u] < net.n
  }

  lemma ActiveIsLive(net: Network, excess: seq<int>, height: seq<int>)
    requires |excess| == |height| == net.n
    ensures forall u: nat | Active(net, excess, height, u) :: Live(net, excess, height, u) && u != net.sink
  {
  }

  /** The worklist holds nodes that may be discharged, and every active node outside except. */
  ghost predicate Covered(net: Network, excess: seq<int>, height: seq<int>, bag: multiset<nat>, except: set<nat>)
    requires |excess| == |height| == net.n
  {
    && (forall u | u in bag :: MayDischarge(net, u))
    && (forall u: nat | Active(net, excess, height, u) && u !in except :: u in bag)
  }

  /** The invariant while src is being discharged. */
  ghost predicate Discharging(net: Network, s: State, src: nat) {
    MayDischarge(net, src) && Consistent(net, s) && Covered(net, s.excess, s.height, s.bag, {src})
  }

  ghost function AfterPush(net: Network, s: State, src: nat, dst: nat, amount: int): State
    requires src < |s.excess| && dst < |s.excess|
  {
    s.(cap := Pushed(s.cap, src, dst, amount),
       excess := s.excess[src := s.excess[src] - amount][dst := s.excess[dst] + amount],
       bag := if dst != net.sink && dst != net.source && s.excess[dst] == 0 then s.bag + multiset{dst} else s.bag)
  }

  /** What a push of the smaller of excess and capacity writes: it drains the node or saturates the arc,
      and lists the receiver if that is an inner node that held nothing. */
  lemma PushWrites(net: Network, s: State, src: nat, dst: nat, amount: int)
    requires src < |s.excess| && dst < |s.excess| && dst < net.n && src != dst && dst != net.source
    requires 0 < amount <= s.excess[src] && amount <= At(s.cap, src, dst)
    requires amount == s.excess[src] || amount == At(s.cap, src, dst)
    ensures var s' := AfterPush(net, s, src, dst, amount);
            && MovesCapacity(s.cap, s'.cap, src, dst, amount)
            && |s'.excess| == |s.excess| && s'.height == s.height && s'.current == s.current
            && s'.excess[src] == s.excess[src] - amount && s'.excess[dst] == s.excess[dst] + amount
            && (forall v: nat | v < |s.excess| && v != src && v != dst :: s'.excess[v] == s.excess[v])
            && (s'.excess[src] == 0 || At(s'.cap, src, dst) == 0)
            && forall v: nat :: s'.bag[v] == s.bag[v] + if v == dst && Inner(net, dst) && s.excess[dst] == 0 then 1 else 0
  {
  }

  lemma PushKeepsCovered(net: Network, s: State, src: nat, dst: nat, amount: int)
    requires HasShape(net, s) && Covered(net, s.excess, s.height, s.bag, {src})
    requires src < net.n && dst < net.n && src != dst && 0 < amount <= s.excess[src] && 0 <= s.excess[dst]
    ensures var s' := AfterPush(net, s, src, dst, amount);
            HasShape(net, s') && Covered(net, s'.excess, s'.height, s'.bag, {src})
  {
    var s' := AfterPush(net, s, src, dst, amount);
    forall u: nat | Active(net, s'.excess, s'.height, u) && u !in {src} ensures u in s'.bag {
      if s.excess[u] > 0 { assert Active(net, s.excess, s.height, u); }
    }
  }

  lemma PushAmountIsMin(net: Network, cap: map<Edge, int>, excess: seq<int>, src: nat, dst: nat)
    requires Valid(net) && ExcessFits(net) && FlowLaws(net, cap, excess)
    requires MayDischarge(net, src) && At(cap, src, dst) > 0 && excess[src] > 0
    ensures PushAmount(excess[src], At(cap, src, dst)) == Min(excess[src], At(cap, src, dst))
    ensures dst < net.n && src != dst && excess[dst] >= 0 && (src, dst) in net.capacity
  {
    assert (src, dst) in net.capacity;
    assert At(cap, src, dst) + At(cap, dst, src) == At(net.capacity, src, dst) + At(net.capacity, dst, src);
    assert 0 <= At(cap, dst, src);
    ExcessIsBounded(net, cap, excess, src);
    PushAmountExact(excess[src], At(cap, src, dst));
  }

  lemma PushKeepsFlowLaws(net: Network, cap: map<Edge, int>, excess: seq<int>, src: nat, dst: nat, amount: int)
    requires Valid(net) && FlowLaws(net, cap, excess) && src < net.n && src != net.source && dst < net.n && dst != net.source
    requires (src, dst) in net.capacity && 0 <= amount <= At(cap, src, dst) && amount <= excess[src]
    ensures FlowLaws(net, Pushed(cap, src, dst, amount), excess[src := excess[src] - amount][dst := excess[dst] + amount])
  {
    PushKeepsPreflow(net, cap, excess, src, dst, amount);
  }

  /** A push along an admissible edge, of the amount the code computes, moves the smaller of excess
      and capacity, keeps the invariant, and puts whatever it activates on the worklist. */
  lemma PushStep(net: Network, s: State, src: nat, dst: nat)
    requires ExcessFits(net) && Discharging(net, s, src) && s.excess[src] > 0
    requires dst < net.n && Admissible(s.cap, s.height, src, dst)
    ensures dst != src
    ensures var amount := PushAmount(s.excess[src], At(s.cap, src, dst));
            var s' := AfterPush(net, s, src, dst, amount);
            && amount == Min(s.excess[src], At(s.cap, src, dst)) && amount > 0
            && Discharging(net, s', src)
            && Potential(net, s'.excess, s'.height) == Potential(net, s.excess, s.height) - amount
  {
    hide FlowLaws, Covered, ExcessFits;
    PushAmountIsMin(net, s.cap, s.excess, src, dst);
    var amount := PushAmount(s.excess[src], At(s.cap, src, dst));
    PushKeepsFlowLaws(net, s.cap, s.excess, src, dst, amount);
    PushKeepsLabels(net, s.cap, s.height, s.current, src, dst, amount);
    PushLowersPotential(net, s.excess, s.height, src, dst, amount);
    PushKeepsCovered(net, s, src, dst, amount);
  }

  /** The cursor may pass an arc that cannot be pushed along. */
  lemma AdvanceStep(net: Network, s: State, src: nat)
    requires Discharging(net, s, src) && 0 <= s.current[src] < |net.adj[src]|
    requires net.adj[src][s.current[src]] < net.n
    requires !Admissible(s.cap, s.height, src, net.adj[src][s.current[src]])
    ensures Discharging(net, s.(current := s.current[src := s.current[src] + 1]), src)
  {
    var dst := net.adj[src][s.current[src]];
    assert 0 <= At(s.cap, src, dst);
    var current' := s.current[src := s.current[src] + 1];
    forall u: nat, k: nat | u < net.n && s.height[u] < net.n && k < current'[u]
      ensures ArcClosed(net, s.cap, s.height, u, k)
    {
      if k < s.current[u] { assert ArcClosed(net, s.cap, s.height, u, k); }
    }
  }

  /** s with src's cursor behind its last arc. */
  ghost function AllArcsPassed(net: Network, s: State, src: nat): State
    requires HasShape(net, s) && src < net.n
  {
    s.(current := s.current[src := |net.adj[src]|])
  }

  ghost function AfterRelabel(net: Network, s: State, src: nat, arc: nat): State
    requires HasShape(net, s) && src < net.n && arc < |net.adj[src]|
  {
    var h := Capped(s.height[net.adj[src][arc]] + 1, net.n);
    s.(height := s.height[src := h], current := if h < net.n then s.current[src := arc] else s.current)
  }

  lemma ConsistentIsResidual(net: Network, s: State)
    requires Consistent(net, s)
    ensures IsResidual(net, s.cap) && forall u: nat, k: nat | u < net.n && k < |net.adj[u]| :: net.adj[u][k] < net.n
  {
  }

  /** Once the cursor has passed all arcs, relabelling strictly raises the node and keeps everything. */
  lemma RelabelStep(net: Network, s: State, src: nat, arc: nat)
    requires Discharging(net, s, src) && Discharging(net, AllArcsPassed(net, s, src), src)
    requires s.excess[src] > 0 && s.height[src] < net.n
    requires IsLowestArc(net, s.cap, s.height, src, |net.adj[src]|, arc)
    ensures var s' := AfterRelabel(net, s, src, arc);
            && s.height[src] < s'.height[src] <= net.n
            && Discharging(net, s', src)
            && Room(net, s'.height) < Room(net, s.height)
  {
    hide FlowLaws, Covered, IsResidual, Valid, ValidLabels, Room;
    ConsistentIsResidual(net, s);
    forall j: nat | j < |net.adj[src]| ensures ArcClosed(net, s.cap, s.height, src, j) {
      assert j < AllArcsPassed(net, s, src).current[src];
    }
    RelabelKeepsLabels(net, s.cap, s.height, s.current, src, arc);
    RaiseUsesRoom(net, s.height, src, Capped(s.height[net.adj[src][arc]] + 1, net.n));
    RaiseKeepsCovered(net, s.excess, s.height, s.bag, src, Capped(s.height[net.adj[src][arc]] + 1, net.n));
  }

  /** The new label is the greatest one, up to n, that no residual arc of the node forbids; the cursor
      goes to the first arc that allows no more, unless the label is n. */
  lemma RelabelIsGreatest(net: Network, s: State, src: nat, arc: nat)
    requires HasShape(net, s) && src < net.n && IsLowestArc(net, s.cap, s.height, src, |net.adj[src]|, arc)
    ensures var s' := AfterRelabel(net, s, src, arc);
            && |s'.height| == net.n && s'.cap == s.cap && s'.excess == s.excess && s'.bag == s.bag
            && (forall v: nat | v < net.n && v != src :: s'.height[v] == s.height[v])
            && Allows(net, s, src, s'.height[src])
            && (forall h: int | Allows(net, s, src, h) :: h <= s'.height[src])
            && s'.current == (if s'.height[src] < net.n then s.current[src := arc] else s.current)
  {
  }

  /** A label of u that is at most n and at most one above the end of each residual arc. */
  ghost predicate Allows(net: Network, s: State, u: nat, h: int)
    requires HasShape(net, s) && u < net.n
  {
    h <= net.n &&
    forall j: nat | j < |net.adj[u]| && At(s.cap, u, net.adj[u][j]) > 0 :: h <= s.height[net.adj[u][j]] + 1
  }

  lemma RaiseKeepsCovered(net: Network, excess: seq<int>, height: seq<int>, bag: multiset<nat>, u: nat, h: int)
    requires |excess| == |height| == net.n && u < net.n && Covered(net, excess, height, bag, {u})
    ensures Covered(net, excess, height[u := h], bag, {u})
  {
    forall v: nat | Active(net, excess, height[u := h], v) && v !in {u} ensures v in bag {
      assert Active(net, excess, height, v);
    }
  }

  /** An active node always has a residual arc to relabel by. */
  lemma ActiveHasResidualArc(net: Network, s: State, src: nat)
    requires Consistent(net, s) && src < net.n && src != net.source && s.excess[src] > 0
    ensures exists j: nat :: j < |net.adj[src]| && At(s.cap, src, net.adj[src][j]) > 0
    ensures forall v: nat | v < net.n :: s.height[v] <= net.n
  {
    var dst := ExcessHasResidualEdge(net, s.cap, s.excess, src);
    var j: nat :| j < |net.adj[src]| && net.adj[src][j] == dst;
  }

  lemma ArcInRange(net: Network, s: State, u: nat, k: nat)
    requires Consistent(net, s) && u < net.n && k < |net.adj[u]|
    ensures net.adj[u][k] < net.n && net.adj[u][k] != u && At(s.cap, u, net.adj[u][k]) >= 0
  {
  }

  lemma CursorMayStepBack(net: Network, s: State, src: nat, k: int)
    requires Discharging(net, s, src) && 0 <= k <= s.current[src]
    ensures Discharging(net, s.(current := s.current[src := k]), src)
  {
    var current' := s.current[src := k];
    forall u: nat, j: nat | u < net.n && s.height[u] < net.n && j < current'[u]
      ensures ArcClosed(net, s.cap, s.height, u, j)
    {
      assert j < s.current[u];
    }
  }

  lemma FieldsInRange(net: Network, s: State, u: nat)
    requires Consistent(net, s) && u < net.n
    ensures 0 <= s.excess[u] && 0 <= s.height[u] <= net.n && 0 <= s.current[u] <= |net.adj[u]|
  {
  }

  lemma InactiveIsCovered(net: Network, excess: seq<int>, height: seq<int>, bag: multiset<nat>, u: nat)
    requires |excess| == |height| == net.n
    requires Covered(net, excess, height, bag, {u}) && !Active(net, excess, height, u)
    ensures Covered(net, excess, height, bag, {})
  {
  }

  // ----- worklist and phases

  lemma TakeFromBag(net: Network, excess: seq<int>, height: seq<int>, bag: multiset<nat>, u: nat)
    requires |excess| == |height| == net.n && Covered(net, excess, height, bag, {}) && u in bag
    ensures MayDischarge(net, u) && Covered(net, excess, height, bag - multiset{u}, {u})
  {
  }

  /** Some label went up, or none changed and excess moved downhill. */
  ghost predicate Advanced(net: Network, s: State, s': State)
    requires |s.height| == |s'.height| == net.n
  {
    || Room(net, s'.height) < Room(net, s.height)
    || (s'.height == s.height && Potential(net, s'.excess, s'.height) < Potential(net, s.excess, s.height))
  }

  /** Raising labels on top of an advance is still an advance. */
  lemma RaisingKeepsAdvance(net: Network, s: State, s': State, height: seq<int>)
    requires |s.height| == |s'.height| == |height| == net.n && Advanced(net, s, s')
    requires forall v: nat | v < net.n :: s'.height[v] <= height[v]
    ensures Advanced(net, s, s'.(height := height))
  {
    SumLe(net.n, RoomAt(net, height), RoomAt(net, s'.height));
    if Room(net, height) == Room(net, s'.height) {
      SumLeEqual(net.n, RoomAt(net, height), RoomAt(net, s'.height));
      forall v: nat | v < net.n ensures height[v] == s'.height[v] {
        assert RoomAt(net, height)(v) == RoomAt(net, s'.height)(v);
      }
      assert height == s'.height;
    }
  }

  lemma StateMeasureNonNegative(net: Network, s: State)
    requires Consistent(net, s)
    ensures Room(net, s.height) >= 0 && Potential(net, s.excess, s.height) >= 0
  {
    MeasuresNonNegative(net, s.excess, s.height);
  }

  /** Before anything has been pushed. */
  ghost predicate Fresh(net: Network, s: State) {
    && HasShape(net, s) && s.cap == net.capacity && s.bag == multiset{}
    && forall v: nat | v < net.n ::
         s.excess[v] == 0 && s.current[v] == 0 && s.height[v] == if v == net.source then net.n else 1
  }

  /** What v holds, and what the source can still send it, before and after its edge is saturated. */
  ghost predicate Received(net: Network, s: State, v: nat, done: bool) {
    var amount := At(net.capacity, net.source, v);
    && At(s.cap, net.source, v) == (if done then 0 else amount)
    && s.bag[v] == (if done && amount > 0 then 1 else 0)
    && (v < |s.excess| ==> s.excess[v] == if done then amount else 0)
  }

  /** The source's first k edges are saturated. */
  ghost predicate Saturated(net: Network, s: State, k: nat)
    requires net.source < |net.adj| && k <= |net.adj[net.source]|
  {
    && IsPreflow(net, s.cap, s.excess) && SinkKeeps(net, s.cap)
    && forall v: nat :: Received(net, s, v, v in net.adj[net.source][..k])
  }

  lemma FreshIsPreflow(net: Network, s: State)
    requires Fresh(net, s)
    ensures HasShape(net, s) && net.source < net.n && Saturated(net, s, 0)
  {
    forall v: nat | v < net.n ensures NetInto(net, s.cap, v) == 0 {
      SumZero(net.n, Column(FlowOf(net, s.cap), v));
    }
  }

  ghost function AfterSaturate(net: Network, s: State, v: nat): State
    requires v < |s.excess|
  {
    var amount := At(s.cap, net.source, v);
    s.(cap := Pushed(s.cap, net.source, v, amount), excess := s.excess[v := s.excess[v] + amount],
       bag := if amount > 0 then s.bag + multiset{v} else s.bag)
  }

  lemma SaturateStep(net: Network, s: State, k: nat)
    requires HasShape(net, s) && net.source < net.n && k < |net.adj[net.source]| && Saturated(net, s, k)
    ensures var v := net.adj[net.source][k];
            v < net.n && v != net.source && Saturated(net, AfterSaturate(net, s, v), k + 1)
  {
    var out := net.adj[net.source];
    var v := out[k];
    SaturateKeepsPreflow(net, s.cap, s.excess, v);
    hide IsPreflow, SinkKeeps;
    assert Received(net, s, v, false) by { assert v !in out[..k]; }
    var s', handled := AfterSaturate(net, s, v), out[..k + 1];
    assert handled == out[..k] + [v];
    forall w: nat ensures Received(net, s', w, w in handled) {
      assert Received(net, s, w, w in out[..k]);
    }
  }

  /** The state after the source's first k edges have been handled. */
  ghost function SaturatedUpTo(net: Network, start: State, k: nat): (s: State)
    requires HasShape(net, start) && net.source < net.n && k <= |net.adj[net.source]|
    ensures HasShape(net, s) && s.height == start.height && s.current == start.current
  {
    if k == 0 then start
    else AfterSaturate(net, SaturatedUpTo(net, start, k - 1), net.adj[net.source][k - 1])
  }

  lemma SaturatedIsResidual(net: Network, s: State, k: nat)
    requires net.source < |net.adj| && k <= |net.adj[net.source]| && Saturated(net, s, k)
    ensures IsResidual(net, s.cap)
  {
  }

  lemma NothingSaturated(net: Network, start: State)
    requires HasShape(net, start) && net.source < net.n
    ensures SaturatedUpTo(net, start, 0) == start
  {
  }

  lemma NextSaturated(net: Network, start: State, k: nat) returns (next: State)
    requires Fresh(net, start) && net.source < net.n && k < |net.adj[net.source]|
    ensures HasShape(net, next) && next == SaturatedUpTo(net, start, k + 1)
    ensures var v := net.adj[net.source][k];
            v < net.n && v != net.source && next == AfterSaturate(net, SaturatedUpTo(net, start, k), v)
  {
    next := SaturatedUpTo(net, start, k + 1);
    assert net.adj[net.source][k] != net.source;
  }

  lemma FreshCapacities(net: Network, start: State)
    requires Fresh(net, start)
    ensures HasShape(net, start) && start.cap == net.capacity
  {
  }

  lemma {:induction false} SaturatedUpToIsSaturated(net: Network, start: State, k: nat)
    requires Fresh(net, start) && net.source < net.n && k <= |net.adj[net.source]|
    ensures Saturated(net, SaturatedUpTo(net, start, k), k) && IsResidual(net, SaturatedUpTo(net, start, k).cap)
  {
    hide Saturated, Fresh, AfterSaturate, SaturatedUpTo, Valid, IsResidual;
    FreshCapacities(net, start);
    if k == 0 {
      FreshIsPreflow(net, start);
      NothingSaturated(net, start);
    } else {
      SaturatedUpToIsSaturated(net, start, k - 1);
      SaturateStep(net, SaturatedUpTo(net, start, k - 1), k - 1);
      var next := NextSaturated(net, start, k - 1);
    }
    SaturatedIsResidual(net, SaturatedUpTo(net, start, k), k);
  }

  lemma SourceCapacityLeft(net: Network, start: State, k: nat, v: nat)
    requires Fresh(net, start) && net.source < net.n && k <= |net.adj[net.source]|
    ensures HasShape(net, start) && 0 <= At(SaturatedUpTo(net, start, k).cap, net.source, v)
  {
    SaturatedUpToIsSaturated(net, start, k);
  }

  /** Saturating the source's edges leaves capacities between other nodes alone. */
  lemma {:induction false} SaturatingTouchesSource(net: Network, start: State, k: nat, u: nat, v: nat)
    requires Fresh(net, start) && HasShape(net, start) && net.source < net.n && k <= |net.adj[net.source]| && u != net.source
    ensures var cap := SaturatedUpTo(net, start, k).cap;
            if v == net.source then At(cap, u, v) >= At(net.capacity, u, v) else At(cap, u, v) == At(net.capacity, u, v)
  {
    hide Valid, Fresh, SaturatedUpTo, At, Pushed;
    if k == 0 {
      NothingSaturated(net, start);
      FreshCapacities(net, start);
    } else {
      var dst := net.adj[net.source][k - 1];
      var next := NextSaturated(net, start, k - 1);
      SaturatingTouchesSource(net, start, k - 1, u, v);
      SourceCapacityLeft(net, start, k - 1, dst);
      var cap := SaturatedUpTo(net, start, k - 1).cap;
      AtPushed(cap, net.source, dst, At(cap, net.source, dst), u, v);
    }
  }

  lemma SaturateKeepsPreflow(net: Network, cap: map<Edge, int>, excess: seq<int>, v: nat)
    requires Valid(net) && IsPreflow(net, cap, excess) && SinkKeeps(net, cap) && (net.source, v) in net.capacity
    ensures v < net.n && v != net.source
    ensures var amount := At(cap, net.source, v);
            var cap' := Pushed(cap, net.source, v, amount);
            IsPreflow(net, cap', excess[v := excess[v] + amount]) && SinkKeeps(net, cap')
  {
    var amount := At(cap, net.source, v);
    PushKeepsResidual(net, cap, net.source, v, amount);
    forall w: nat | w < net.n
      ensures NetInto(net, Pushed(cap, net.source, v, amount), w)
           == NetInto(net, cap, w) + (if w == v then amount else if w == net.source then -amount else 0)
    {
      PushChangesNet(net, cap, net.source, v, amount, w);
    }
  }

  /** Once all edges out of the source are saturated, the initial labels are valid. */
  lemma SaturatedIsConsistent(net: Network, s: State, start: State)
    requires Fresh(net, start) && HasShape(net, s) && s.height == start.height && s.current == start.current
    requires net.source < net.n && Saturated(net, s, |net.adj[net.source]|)
    ensures Consistent(net, s) && SinkKeeps(net, s.cap)
    ensures forall v: nat :: s.bag[v] == if At(net.capacity, net.source, v) > 0 then 1 else 0
    ensures forall v: nat | v < net.n && v != net.source :: s.excess[v] == At(net.capacity, net.source, v)
  {
    var out := net.adj[net.source];
    assert out[..|out|] == out;
    forall v: nat
      ensures At(s.cap, net.source, v) == 0 && Received(net, s, v, true)
    {
      assert Received(net, s, v, v in out);
      if v !in out { assert (net.source, v) !in net.capacity; }
    }
  }

  lemma EndsInRange(net: Network)
    requires Valid(net)
    ensures net.source < net.n && net.sink < net.n && net.source != net.sink
  {
  }

  /** The initial worklist holds every active node and no dead one. */
  lemma InitialBagIsLive(net: Network, s: State, start: State)
    requires Fresh(net, start) && Consistent(net, s) && s.height == start.height
    requires forall v: nat :: s.bag[v] == if At(net.capacity, net.source, v) > 0 then 1 else 0
    requires forall v: nat | v < net.n && v != net.source :: s.excess[v] == At(net.capacity, net.source, v)
    ensures Covered(net, s.excess, s.height, s.bag, {})
    ensures forall u | u in s.bag :: Live(net, s.excess, s.height, u)
  {
    assert forall u | u in s.bag :: (net.source, u) in net.capacity;
    assert net.source < net.n && net.n > 1;
    hide FlowLaws, LabelLaws;
  }

  /** The first phase ends with the maximum flow value in the sink, unless the sink was itself
      discharged. */
  lemma NothingActiveIsMaximum(net: Network, s: State)
    requires Consistent(net, s) && Covered(net, s.excess, s.height, multiset{}, {})
    requires SinkKeeps(net, s.cap) && s.height[net.sink] <= 1
    ensures IsMaxFlowValue(net, s.excess[net.sink])
    ensures s.excess[net.sink] == CutCapacity(net, SinkSide(net, s.cap))
  {
    forall v: nat | v < net.n && v != net.sink && s.excess[v] > 0 ensures s.height[v] >= net.n {
      assert !Active(net, s.excess, s.height, v);
    }
    DrainedMeansMaximum(net, s.cap, s.excess, s.height);
  }
}
