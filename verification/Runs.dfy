/** Whole runs of the first phase, one small step after another: take a node from the worklist, push
    along one arc or pass it, relabel, or relabel globally. */
module Runs {
  import opened Sums
  import opened FlowNetwork
  import opened Labels
  import opened PreflowState
  import opened ReverseBfs

  /** Between discharges, or discharging src with its arcs before k scanned. */
  datatype Place = Between | Scan(src: nat, k: int)

  datatype Config = Config(s: State, place: Place)

  // ----- steps

  /** Take a node from the worklist; a dead one is dropped. */
  ghost predicate Pick(net: Network, c: Config, c': Config, u: nat) {
    && HasShape(net, c.s) && c.place == Between && u in c.s.bag && u < net.n
    && c'.s == c.s.(bag := c.s.bag - multiset{u})
    && c'.place == if c.s.excess[u] == 0 || c.s.height[u] >= net.n then Between else Scan(u, c.s.current[u])
  }

  /** Look at the arc under the scan: push along it if it is admissible, and stop if that was all. */
  ghost predicate ScanArc(net: Network, c: Config, c': Config) {
    && HasShape(net, c.s) && c.place.Scan? && c.place.src < net.n && 0 <= c.place.k < |net.adj[c.place.src]|
    && var src, k := c.place.src, c.place.k;
       var dst := net.adj[src][k];
       if At(c.s.cap, src, dst) == 0 || c.s.height[src] - 1 != c.s.height[dst] then
         c' == Config(c.s, Scan(src, k + 1))
       else
         var s := AfterPush(net, c.s, src, dst, PushAmount(c.s.excess[src], At(c.s.cap, src, dst)));
         c' == if s.excess[src] == 0 then Config(s.(current := s.current[src := k]), Between) else Config(s, Scan(src, k + 1))
  }

  /** All arcs scanned: relabel, and stop if the node is now at n. */
  ghost predicate Raise(net: Network, c: Config, c': Config, arc: nat) {
    && HasShape(net, c.s) && c.place.Scan? && c.place.src < net.n && c.place.k == |net.adj[c.place.src]|
    && IsLowestArc(net, c.s.cap, c.s.height, c.place.src, |net.adj[c.place.src]|, arc)
    && c'.s == AfterRelabel(net, c.s, c.place.src, arc)
    && c'.place == if c'.s.height[c.place.src] == net.n then Between else Scan(c.place.src, c'.s.current[c.place.src])
  }

  /** A global relabel: exact labels, fresh cursors, and every active node listed once. */
  ghost predicate Global(net: Network, c: Config, c': Config) {
    && HasShape(net, c.s) && HasShape(net, c'.s) && c.place == c'.place == Between
    && c'.s.cap == c.s.cap && c'.s.excess == c.s.excess
    && ExactLabels(net, c.s.cap, c'.s.height)
    && (forall v: nat | v < net.n :: c'.s.current[v] == 0)
    && (forall v: nat :: c'.s.bag[v] == if Active(net, c'.s.excess, c'.s.height, v) then 1 else 0)
  }

  ghost predicate LocalStep(net: Network, c: Config, c': Config) {
    || (exists u: nat :: Pick(net, c, c', u))
    || ScanArc(net, c, c')
    || (exists arc: nat :: Raise(net, c, c', arc))
  }

  ghost predicate Step(net: Network, c: Config, c': Config) {
    LocalStep(net, c, c') || Global(net, c, c')
  }

  ghost predicate IsStart(net: Network, c: Config) {
    && Valid(net) && c.place == Between
    && exists s: State :: Fresh(net, s) && c.s == SaturatedUpTo(net, s, |net.adj[net.source]|)
  }

  ghost predicate Steps(net: Network, run: seq<Config>) {
    forall k: nat | k + 1 < |run| :: Step(net, run[k], run[k + 1])
  }

  /** Steps without a global relabel. */
  ghost predicate LocalSteps(net: Network, run: seq<Config>) {
    forall k: nat | k + 1 < |run| :: LocalStep(net, run[k], run[k + 1])
  }

  ghost predicate IsRun(net: Network, run: seq<Config>) {
    |run| > 0 && IsStart(net, run[0]) && Steps(net, run)
  }

  ghost function Last(run: seq<Config>): Config
    requires |run| > 0
  {
    run[|run| - 1]
  }

  /** The worklist has drained. */
  ghost predicate IsComplete(net: Network, run: seq<Config>) {
    IsRun(net, run) && Last(run).place == Between && Last(run).s.bag == multiset{}
  }

  // ----- what every step keeps

  ghost predicate Laws(net: Network, c: Config) {
    match c.place
    case Between => Consistent(net, c.s) && Covered(net, c.s.excess, c.s.height, c.s.bag, {})
    case Scan(src, k) =>
      && HasShape(net, c.s) && MayDischarge(net, src) && c.s.excess[src] > 0 && c.s.height[src] < net.n
      && 0 <= c.s.current[src] <= k <= |net.adj[src]|
      && Discharging(net, Scanned(c), src)
  }

  /** The state of a scan, with the cursor where the scan is. */
  ghost function Scanned(c: Config): State
    requires c.place.Scan? && c.place.src < |c.s.current|
  {
    c.s.(current := c.s.current[c.place.src := c.place.k])
  }

  lemma StartKeepsLaws(net: Network, c: Config)
    requires IsStart(net, c)
    ensures Laws(net, c) && SinkKeeps(net, c.s.cap) && c.s.height[net.sink] <= 1
    ensures forall v: nat :: c.s.bag[v] == if At(net.capacity, net.source, v) > 0 then 1 else 0
    ensures forall v: nat | v < net.n && v != net.source :: c.s.excess[v] == At(net.capacity, net.source, v) && c.s.height[v] == 1
    ensures forall v: nat | v < net.n :: c.s.current[v] == 0
    ensures forall u: nat, v: nat | u != net.source ::
              if v == net.source then At(c.s.cap, u, v) >= At(net.capacity, u, v)
              else At(c.s.cap, u, v) == At(net.capacity, u, v)
  {
    var start: State :| Fresh(net, start) && c.s == SaturatedUpTo(net, start, |net.adj[net.source]|);
    SaturatedUpToIsSaturated(net, start, |net.adj[net.source]|);
    SaturatedIsConsistent(net, c.s, start);
    InitialBagIsLive(net, c.s, start);
    hide Consistent, Covered, Fresh, SaturatedUpTo;
    forall u: nat, v: nat | u != net.source
      ensures if v == net.source then At(c.s.cap, u, v) >= At(net.capacity, u, v)
              else At(c.s.cap, u, v) == At(net.capacity, u, v)
    {
      SaturatingTouchesSource(net, start, |net.adj[net.source]|, u, v);
    }
  }

  lemma StartExists(net: Network) returns (c: Config)
    requires Valid(net)
    ensures IsStart(net, c)
  {
    var s := State(net.capacity, seq(net.n, _ => 0), seq(net.n, i => if i == net.source then net.n else 1),
                   seq(net.n, _ => 0), multiset{});
    assert Fresh(net, s);
    c := Config(SaturatedUpTo(net, s, |net.adj[net.source]|), Between);
  }

  lemma StartedBy(net: Network, start: State, c: Config)
    requires Fresh(net, start) && net.source < net.n && c.place == Between
    requires c.s == SaturatedUpTo(net, start, |net.adj[net.source]|)
    ensures IsRun(net, [c])
    ensures Consistent(net, c.s) && SinkKeeps(net, c.s.cap)
    ensures forall v: nat :: c.s.bag[v] == if At(net.capacity, net.source, v) > 0 then 1 else 0
    ensures forall v: nat | v < net.n && v != net.source :: c.s.excess[v] == At(net.capacity, net.source, v)
  {
    assert IsStart(net, c);
    StartKeepsLaws(net, c);
  }

  lemma PickKeepsLaws(net: Network, c: Config, c': Config, u: nat)
    requires Laws(net, c) && Pick(net, c, c', u)
    ensures Laws(net, c')
  {
    hide FlowLaws, LabelLaws, Valid;
    FieldsInRange(net, c.s, u);
    TakeFromBag(net, c.s.excess, c.s.height, c.s.bag, u);
    if c'.place == Between {
      InactiveIsCovered(net, c.s.excess, c.s.height, c'.s.bag, u);
    } else {
      assert c.s.current[u := c.s.current[u]] == c.s.current;
      assert Scanned(c') == c'.s;
    }
  }

  lemma PassKeepsLaws(net: Network, c: Config, c': Config)
    requires Laws(net, c) && ScanArc(net, c, c')
    requires !Admissible(c.s.cap, c.s.height, c.place.src, net.adj[c.place.src][c.place.k])
    ensures Laws(net, c')
  {
    var src, k := c.place.src, c.place.k;
    ArcInRange(net, Scanned(c), src, k);
    AdvanceStep(net, Scanned(c), src);
    assert c.s.current[src := k][src := k + 1] == c.s.current[src := k + 1];
  }

  lemma PushKeepsLaws(net: Network, c: Config, c': Config)
    requires ExcessFits(net) && Laws(net, c) && ScanArc(net, c, c')
    requires Admissible(c.s.cap, c.s.height, c.place.src, net.adj[c.place.src][c.place.k])
    ensures Laws(net, c')
  {
    hide FlowLaws, LabelLaws, Covered, Valid, ExcessFits;
    var src, k := c.place.src, c.place.k;
    var dst := net.adj[src][k];
    ArcInRange(net, Scanned(c), src, k);
    PushStep(net, Scanned(c), src, dst);
    var s := AfterPush(net, c.s, src, dst, PushAmount(c.s.excess[src], At(c.s.cap, src, dst)));
    var scanned := s.(current := s.current[src := k]);
    assert scanned == AfterPush(net, Scanned(c), src, dst, PushAmount(c.s.excess[src], At(c.s.cap, src, dst)));
    if s.excess[src] == 0 {
      InactiveIsCovered(net, scanned.excess, scanned.height, scanned.bag, src);
    } else {
      FieldsInRange(net, scanned, src);
      AdvanceStep(net, scanned, src);
      assert s.current[src := k][src := k + 1] == s.current[src := k + 1];
    }
  }

  lemma RaiseKeepsLaws(net: Network, c: Config, c': Config, arc: nat)
    requires Laws(net, c) && Raise(net, c, c', arc)
    ensures Laws(net, c') && Room(net, c'.s.height) < Room(net, c.s.height)
  {
    hide FlowLaws, LabelLaws, Covered, Valid;
    var src := c.place.src;
    assert AllArcsPassed(net, Scanned(c), src) == Scanned(c);
    CursorMayStepBack(net, Scanned(c), src, c.s.current[src]);
    assert c.s.current[src := c.place.k][src := c.s.current[src]] == c.s.current;
    assert AllArcsPassed(net, c.s, src) == Scanned(c);
    RelabelStep(net, c.s, src, arc);
    if c'.place == Between {
      InactiveIsCovered(net, c'.s.excess, c'.s.height, c'.s.bag, src);
    } else {
      FieldsInRange(net, c'.s, src);
      assert Scanned(c') == c'.s;
    }
  }

  lemma GlobalKeepsLaws(net: Network, c: Config, c': Config)
    requires Laws(net, c) && Global(net, c, c')
    ensures Laws(net, c') && c'.s.height[net.sink] == 0
  {
    ExactIsValid(net, c.s.cap, c'.s.height);
  }

  lemma StepKeepsLaws(net: Network, c: Config, c': Config)
    requires ExcessFits(net) && Laws(net, c) && Step(net, c, c')
    ensures Laws(net, c')
  {
    hide Laws, ExcessFits, Global, Raise, Pick;
    if u: nat :| Pick(net, c, c', u) {
      PickKeepsLaws(net, c, c', u);
    } else if arc: nat :| Raise(net, c, c', arc) {
      RaiseKeepsLaws(net, c, c', arc);
    } else if Global(net, c, c') {
      GlobalKeepsLaws(net, c, c');
    } else {
      ArcKeepsLaws(net, c, c');
    }
  }

  lemma ArcKeepsLaws(net: Network, c: Config, c': Config)
    requires ExcessFits(net) && Laws(net, c) && ScanArc(net, c, c')
    ensures Laws(net, c')
  {
    ArcInRange(net, Scanned(c), c.place.src, c.place.k);
    hide Discharging, ExcessFits;
    if Admissible(c.s.cap, c.s.height, c.place.src, net.adj[c.place.src][c.place.k]) {
      PushKeepsLaws(net, c, c');
    } else {
      PassKeepsLaws(net, c, c');
    }
  }

  lemma {:induction false} RunKeepsLaws(net: Network, run: seq<Config>, k: nat)
    requires ExcessFits(net) && IsRun(net, run) && k < |run|
    ensures Laws(net, run[k])
  {
    hide ExcessFits, Laws, IsStart;
    if k == 0 {
      StartKeepsLaws(net, run[0]);
    } else {
      RunKeepsLaws(net, run, k - 1);
      assert Step(net, run[k - 1], run[k - 1 + 1]);
      hide Step;
      StepKeepsLaws(net, run[k - 1], run[k]);
    }
  }

  ghost function ArcsLeft(net: Network, c: Config): int
    requires c.place.Scan? ==> c.place.src < |net.adj|
  {
    match c.place
    case Between => 0
    case Scan(src, k) => |net.adj[src]| - k + 1
  }

  lemma LawsGiveShape(net: Network, c: Config)
    requires Laws(net, c)
    ensures HasShape(net, c.s) && net.sink < net.n && (c.place.Scan? ==> c.place.src < net.n)
    ensures Room(net, c.s.height) >= 0 && Potential(net, c.s.excess, c.s.height) >= 0 && ArcsLeft(net, c) >= 0
  {
    if c.place.Scan? {
      StateMeasureNonNegative(net, Scanned(c));
    } else {
      StateMeasureNonNegative(net, c.s);
    }
  }

  // ----- the worklist

  /** Every listed node is listed once and would not be dropped; the one being discharged is not listed. */
  ghost predicate ListedOnce(net: Network, c: Config) {
    && |c.s.excess| == |c.s.height| == net.n
    && (forall v: nat :: c.s.bag[v] <= 1)
    && (forall v: nat | v in c.s.bag :: Live(net, c.s.excess, c.s.height, v))
    && (c.place.Scan? ==> c.place.src !in c.s.bag)
  }

  lemma StartListsOnce(net: Network, c: Config)
    requires IsStart(net, c)
    ensures ListedOnce(net, c)
  {
    StartKeepsLaws(net, c);
    LawsGiveShape(net, c);
    hide IsStart, Laws, Valid, At;
  }

  lemma PushListsOnce(net: Network, c: Config, c': Config)
    requires ExcessFits(net) && Laws(net, c) && ListedOnce(net, c) && ScanArc(net, c, c')
    requires net.adj[c.place.src][c.place.k] < net.n
    requires Admissible(c.s.cap, c.s.height, c.place.src, net.adj[c.place.src][c.place.k])
    ensures ListedOnce(net, c')
  {
    hide FlowLaws, LabelLaws, Covered, ExcessFits, Valid;
    var src, dst := c.place.src, net.adj[c.place.src][c.place.k];
    FieldsInRange(net, Scanned(c), dst);
    FieldsInRange(net, Scanned(c), src);
    PushStep(net, Scanned(c), src, dst);
  }

  lemma PickListsOnce(net: Network, c: Config, c': Config, u: nat)
    requires ListedOnce(net, c) && Pick(net, c, c', u)
    ensures ListedOnce(net, c')
  {
    hide HasShape;
  }

  lemma RaiseListsOnce(net: Network, c: Config, c': Config, arc: nat)
    requires ListedOnce(net, c) && Raise(net, c, c', arc)
    ensures ListedOnce(net, c')
  {
    hide Valid, IsLowestArc;
  }

  lemma GlobalListsOnce(net: Network, c: Config, c': Config)
    requires Global(net, c, c')
    ensures ListedOnce(net, c')
  {
    hide Valid, ExactLabels;
  }

  lemma ArcListsOnce(net: Network, c: Config, c': Config)
    requires ExcessFits(net) && Laws(net, c) && ListedOnce(net, c) && ScanArc(net, c, c')
    ensures ListedOnce(net, c')
  {
    ArcInRange(net, Scanned(c), c.place.src, c.place.k);
    hide ExcessFits, Discharging, Valid;
    if Admissible(c.s.cap, c.s.height, c.place.src, net.adj[c.place.src][c.place.k]) {
      PushListsOnce(net, c, c');
    }
  }

  lemma StepListsOnce(net: Network, c: Config, c': Config)
    requires ExcessFits(net) && Laws(net, c) && ListedOnce(net, c) && Step(net, c, c')
    ensures ListedOnce(net, c')
  {
    hide Laws, ExcessFits, ListedOnce, Global, Raise, Pick, ScanArc;
    if u: nat :| Pick(net, c, c', u) {
      PickListsOnce(net, c, c', u);
    } else if arc: nat :| Raise(net, c, c', arc) {
      RaiseListsOnce(net, c, c', arc);
    } else if Global(net, c, c') {
      GlobalListsOnce(net, c, c');
    } else {
      ArcListsOnce(net, c, c');
    }
  }

  lemma {:induction false} RunListsOnce(net: Network, run: seq<Config>, k: nat)
    requires ExcessFits(net) && IsRun(net, run) && k < |run|
    ensures ListedOnce(net, run[k])
  {
    hide ExcessFits, Laws, IsStart, ListedOnce;
    if k == 0 {
      StartListsOnce(net, run[0]);
    } else {
      RunListsOnce(net, run, k - 1);
      RunKeepsLaws(net, run, k - 1);
      assert Step(net, run[k - 1], run[k - 1 + 1]);
      hide Step;
      StepListsOnce(net, run[k - 1], run[k]);
    }
  }

  /** In every run, between discharges the worklist holds exactly the active nodes, each of them once,
      and perhaps the sink; during a discharge it holds all of them but the one being discharged. No
      node is ever taken from it only to be dropped. */
  lemma WorklistIsActive(net: Network, run: seq<Config>, k: nat)
    requires ExcessFits(net) && IsRun(net, run) && k < |run|
    ensures |run[k].s.excess| == |run[k].s.height| == net.n
    ensures forall v: nat | v != net.sink ::
              run[k].s.bag[v] ==
                if Active(net, run[k].s.excess, run[k].s.height, v) && !(run[k].place.Scan? && v == run[k].place.src) then 1 else 0
    ensures run[k].s.bag[net.sink] <= 1 && forall v: nat | v in run[k].s.bag ::
              v < net.n && run[k].s.excess[v] > 0 && run[k].s.height[v] < net.n
  {
    RunKeepsLaws(net, run, k);
    RunListsOnce(net, run, k);
    hide ExcessFits, IsRun, Consistent;
    var c := run[k];
    forall v: nat | v != net.sink
      ensures c.s.bag[v] == if Active(net, c.s.excess, c.s.height, v) && !(c.place.Scan? && v == c.place.src) then 1 else 0
    {
      if v in c.s.bag { assert Live(net, c.s.excess, c.s.height, v); }
    }
  }

  // ----- which steps there are

  /** Any listed node may be the next one taken, and is then scanned from its cursor. */
  lemma AnyNodeMayBeTaken(net: Network, run: seq<Config>, k: nat, u: nat) returns (c': Config)
    requires ExcessFits(net) && IsRun(net, run) && k < |run| && run[k].place == Between && u in run[k].s.bag
    ensures Step(net, run[k], c') && c'.place.Scan? && c'.place.src == u && c'.s.bag[u] == 0
    ensures u < |run[k].s.current| && c'.place.k == run[k].s.current[u]
    ensures c'.s == run[k].s.(bag := c'.s.bag) && forall v: nat | v != u :: c'.s.bag[v] == run[k].s.bag[v]
  {
    var c := run[k];
    RunListsOnce(net, run, k);
    RunKeepsLaws(net, run, k);
    LawsGiveShape(net, c);
    assert Live(net, c.s.excess, c.s.height, u);
    hide ExcessFits, IsRun, Consistent, Covered;
    c' := Config(c.s.(bag := c.s.bag - multiset{u}), Scan(u, c.s.current[u]));
    assert Pick(net, c, c', u);
  }

  lemma {:induction false} ExactLabelOf(net: Network, cap: map<Edge, int>, v: nat, bound: nat) returns (d: nat)
    ensures d <= bound && (forall k: nat | k < bound :: d <= k <==> Within(net, cap, v, k))
  {
    if bound == 0 {
      d := 0;
    } else {
      d := ExactLabelOf(net, cap, v, bound - 1);
      if d == bound - 1 && !Within(net, cap, v, bound - 1) {
        d := bound;
      } else if d < bound - 1 {
        WithinGrows(net, cap, v, d, bound - 1);
      }
    }
  }

  lemma {:induction false} ExactLabelsUpTo(net: Network, cap: map<Edge, int>, count: nat) returns (height: seq<int>)
    ensures |height| == count
    ensures forall v: nat | v < count :: 0 <= height[v] <= net.n
    ensures forall v: nat, k: nat | v < count && k < net.n :: height[v] <= k <==> Within(net, cap, v, k)
  {
    if count == 0 {
      height := [];
    } else {
      height := ExactLabelsUpTo(net, cap, count - 1);
      var d := ExactLabelOf(net, cap, count - 1, net.n);
      height := height + [d];
    }
  }

  lemma {:induction false} ActiveNodes(net: Network, excess: seq<int>, height: seq<int>, count: nat) returns (bag: multiset<nat>)
    requires |excess| == |height| == net.n
    ensures forall v: nat :: bag[v] == if v < count && Active(net, excess, height, v) then 1 else 0
  {
    if count == 0 {
      bag := multiset{};
    } else {
      bag := ActiveNodes(net, excess, height, count - 1);
      if Active(net, excess, height, count - 1) { bag := bag + multiset{count - 1}; }
    }
  }

  /** Between any two discharges the labels may be recomputed. */
  lemma AnyTimeForGlobal(net: Network, c: Config) returns (c': Config)
    requires HasShape(net, c.s) && c.place == Between
    ensures Global(net, c, c') && Step(net, c, c')
  {
    var height := ExactLabelsUpTo(net, c.s.cap, net.n);
    var bag := ActiveNodes(net, c.s.excess, height, net.n);
    c' := Config(State(c.s.cap, c.s.excess, height, seq(net.n, _ => 0), bag), Between);
    assert Global(net, c, c');
  }

  // ----- runs can be completed

  lemma LocalStepsPrepend(net: Network, c: Config, p: seq<Config>)
    requires |p| > 0 && LocalStep(net, c, p[0]) && LocalSteps(net, p)
    ensures LocalSteps(net, [c] + p)
  {
    hide LocalStep;
    var q := [c] + p;
    forall k: nat | k + 1 < |q| ensures LocalStep(net, q[k], q[k + 1]) {
      if k > 0 { assert q[k] == p[k - 1] && LocalStep(net, p[k - 1], p[k - 1 + 1]); }
    }
  }

  lemma LocalStepsAreSteps(net: Network, p: seq<Config>)
    requires LocalSteps(net, p)
    ensures Steps(net, p)
  {
    hide LocalStep;
    forall k: nat | k + 1 < |p| ensures Step(net, p[k], p[k + 1]) { assert LocalStep(net, p[k], p[k + 1]); }
  }

  lemma {:induction false} LowestArcExists(net: Network, cap: map<Edge, int>, height: seq<int>, u: nat, count: nat) returns (m: nat)
    requires u < |net.adj| && count <= |net.adj[u]|
    requires forall j: nat | j < |net.adj[u]| :: net.adj[u][j] < |height|
    requires exists j: nat :: j < count && At(cap, u, net.adj[u][j]) > 0
    ensures IsLowestArc(net, cap, height, u, count, m)
  {
    var last := count - 1;
    if exists j: nat :: j < last && At(cap, u, net.adj[u][j]) > 0 {
      m := LowestArcExists(net, cap, height, u, last);
      if At(cap, u, net.adj[u][last]) > 0 && height[net.adj[u][last]] < height[net.adj[u][m]] {
        m := last;
      }
    } else {
      m := last;
    }
  }

  /** Nearer to the end: by the room left, the potential, the worklist, and the arcs left to scan. */
  ghost predicate Nearer(net: Network, c: Config, c': Config)
    requires HasShape(net, c.s) && HasShape(net, c'.s)
    requires (c.place.Scan? ==> c.place.src < net.n) && (c'.place.Scan? ==> c'.place.src < net.n)
  {
    var room, room' := Room(net, c.s.height), Room(net, c'.s.height);
    var potential, potential' := Potential(net, c.s.excess, c.s.height), Potential(net, c'.s.excess, c'.s.height);
    || room' < room
    || (room' == room && potential' < potential)
    || (room' == room && potential' == potential && |c'.s.bag| < |c.s.bag|)
    || (room' == room && potential' == potential && |c'.s.bag| == |c.s.bag| && ArcsLeft(net, c') < ArcsLeft(net, c))
  }

  /** A sink lifted to n stays there and neither gains nor loses. */
  ghost predicate SinkStays(net: Network, c: Config, c': Config)
    requires HasShape(net, c.s) && HasShape(net, c'.s) && net.sink < net.n
  {
    c.s.height[net.sink] == net.n ==>
      c'.s.height[net.sink] == net.n && c'.s.excess[net.sink] == c.s.excess[net.sink]
  }

  lemma NextPick(net: Network, c: Config) returns (c': Config)
    requires Laws(net, c) && c.place == Between && c.s.bag != multiset{}
    ensures LocalStep(net, c, c') && Laws(net, c')
    ensures HasShape(net, c.s) && HasShape(net, c'.s) && net.sink < net.n && (c'.place.Scan? ==> c'.place.src < net.n)
    ensures Nearer(net, c, c') && SinkStays(net, c, c')
  {
    var u :| u in c.s.bag;
    c' := Config(c.s.(bag := c.s.bag - multiset{u}),
                 if c.s.excess[u] == 0 || c.s.height[u] >= net.n then Between else Scan(u, c.s.current[u]));
    assert Pick(net, c, c', u);
    hide Room, Potential, Pick, FlowLaws, LabelLaws;
    PickKeepsLaws(net, c, c', u);
    LawsGiveShape(net, c');
  }

  lemma NextPass(net: Network, c: Config) returns (c': Config)
    requires Laws(net, c) && c.place.Scan? && c.place.k < |net.adj[c.place.src]|
    requires net.adj[c.place.src][c.place.k] < net.n
    requires !Admissible(c.s.cap, c.s.height, c.place.src, net.adj[c.place.src][c.place.k])
    ensures LocalStep(net, c, c') && Laws(net, c') && c' == Config(c.s, Scan(c.place.src, c.place.k + 1))
    ensures HasShape(net, c.s) && HasShape(net, c'.s) && net.sink < net.n && (c'.place.Scan? ==> c'.place.src < net.n)
    ensures Nearer(net, c, c') && SinkStays(net, c, c')
  {
    LawsGiveShape(net, c);
    ArcInRange(net, Scanned(c), c.place.src, c.place.k);
    c' := Config(c.s, Scan(c.place.src, c.place.k + 1));
    assert ScanArc(net, c, c');
    hide Room, Potential, Discharging, Valid;
    PassKeepsLaws(net, c, c');
  }

  lemma PushIsNearer(net: Network, c: Config, c': Config)
    requires ExcessFits(net) && Laws(net, c) && ScanArc(net, c, c')
    requires HasShape(net, c'.s) && net.sink < net.n && (c'.place.Scan? ==> c'.place.src < net.n)
    requires net.adj[c.place.src][c.place.k] < net.n
    requires Admissible(c.s.cap, c.s.height, c.place.src, net.adj[c.place.src][c.place.k])
    ensures Nearer(net, c, c') && SinkStays(net, c, c')
  {
    hide Room, Potential, FlowLaws, LabelLaws, Covered, ExcessFits, Valid;
    FieldsInRange(net, Scanned(c), c.place.src);
    PushStep(net, Scanned(c), c.place.src, net.adj[c.place.src][c.place.k]);
  }

  lemma NextPush(net: Network, c: Config) returns (c': Config)
    requires ExcessFits(net) && Laws(net, c) && c.place.Scan? && c.place.k < |net.adj[c.place.src]|
    requires net.adj[c.place.src][c.place.k] < net.n
    requires Admissible(c.s.cap, c.s.height, c.place.src, net.adj[c.place.src][c.place.k])
    ensures LocalStep(net, c, c') && Laws(net, c')
    ensures HasShape(net, c.s) && HasShape(net, c'.s) && net.sink < net.n && (c'.place.Scan? ==> c'.place.src < net.n)
    ensures Nearer(net, c, c') && SinkStays(net, c, c')
  {
    var src, k := c.place.src, c.place.k;
    var dst := net.adj[src][k];
    LawsGiveShape(net, c);
    var s := AfterPush(net, c.s, src, dst, PushAmount(c.s.excess[src], At(c.s.cap, src, dst)));
    c' := if s.excess[src] == 0 then Config(s.(current := s.current[src := k]), Between) else Config(s, Scan(src, k + 1));
    assert ScanArc(net, c, c');
    hide Nearer, SinkStays, Discharging, ExcessFits, ScanArc;
    PushKeepsLaws(net, c, c');
    LawsGiveShape(net, c');
    PushIsNearer(net, c, c');
  }

  lemma NextArc(net: Network, c: Config) returns (c': Config)
    requires ExcessFits(net) && Laws(net, c) && c.place.Scan? && c.place.k < |net.adj[c.place.src]|
    ensures LocalStep(net, c, c') && Laws(net, c')
    ensures HasShape(net, c.s) && HasShape(net, c'.s) && net.sink < net.n && (c'.place.Scan? ==> c'.place.src < net.n)
    ensures Nearer(net, c, c') && SinkStays(net, c, c')
  {
    ArcInRange(net, Scanned(c), c.place.src, c.place.k);
    LawsGiveShape(net, c);
    hide Discharging, ExcessFits, Valid, LocalStep, Nearer, SinkStays;
    if Admissible(c.s.cap, c.s.height, c.place.src, net.adj[c.place.src][c.place.k]) {
      c' := NextPush(net, c);
    } else {
      c' := NextPass(net, c);
    }
  }

  lemma NextRaise(net: Network, c: Config) returns (c': Config)
    requires Laws(net, c) && c.place.Scan? && c.place.k == |net.adj[c.place.src]|
    ensures LocalStep(net, c, c') && Laws(net, c') && exists arc: nat :: Raise(net, c, c', arc)
    ensures HasShape(net, c.s) && HasShape(net, c'.s) && net.sink < net.n && (c'.place.Scan? ==> c'.place.src < net.n)
    ensures Nearer(net, c, c') && SinkStays(net, c, c')
  {
    var src := c.place.src;
    ActiveHasResidualArc(net, Scanned(c), src);
    forall j: nat | j < |net.adj[src]| ensures net.adj[src][j] < net.n { ArcInRange(net, Scanned(c), src, j); }
    var arc := LowestArcExists(net, c.s.cap, c.s.height, src, |net.adj[src]|);
    LawsGiveShape(net, c);
    hide Room, Potential, FlowLaws, LabelLaws, Covered, Valid;
    var s := AfterRelabel(net, c.s, src, arc);
    c' := Config(s, if s.height[src] == net.n then Between else Scan(src, s.current[src]));
    assert Raise(net, c, c', arc);
    RaiseKeepsLaws(net, c, c', arc);
    LawsGiveShape(net, c');
  }

  /** Without further global relabels every run comes to an end, so every run can be completed. */
  lemma {:induction false} Drain(net: Network, c: Config) returns (p: seq<Config>)
    requires ExcessFits(net) && Laws(net, c)
    ensures HasShape(net, c.s) && net.sink < net.n
    ensures |p| > 0 && p[0] == c && LocalSteps(net, p) && Laws(net, Last(p)) && HasShape(net, Last(p).s)
    ensures Last(p).place == Between && Last(p).s.bag == multiset{} && SinkStays(net, c, Last(p))
    decreases (LawsGiveShape(net, c); Room(net, c.s.height)), Potential(net, c.s.excess, c.s.height), |c.s.bag|, (LawsGiveShape(net, c); ArcsLeft(net, c))
  {
    LawsGiveShape(net, c);
    hide Laws, Room, Potential, ExcessFits, LocalStep;
    if c.place == Between && c.s.bag == multiset{} {
      p := [c];
    } else {
      var c' := Next(net, c);
      LawsGiveShape(net, c');
      p := Drain(net, c');
      LocalStepsPrepend(net, c, p);
      p := [c] + p;
    }
  }

  lemma Next(net: Network, c: Config) returns (c': Config)
    requires ExcessFits(net) && Laws(net, c) && !(c.place == Between && c.s.bag == multiset{})
    ensures LocalStep(net, c, c') && Laws(net, c')
    ensures HasShape(net, c.s) && HasShape(net, c'.s) && net.sink < net.n
    ensures (c.place.Scan? ==> c.place.src < net.n) && (c'.place.Scan? ==> c'.place.src < net.n)
    ensures Nearer(net, c, c') && SinkStays(net, c, c')
  {
    LawsGiveShape(net, c);
    hide LocalStep, Nearer, SinkStays, ExcessFits, Discharging, Consistent;
    if c.place == Between {
      c' := NextPick(net, c);
    } else if c.place.k < |net.adj[c.place.src]| {
      c' := NextArc(net, c);
    } else {
      c' := NextRaise(net, c);
    }
  }

  // ----- the sink is not discharged

  lemma ArcKeepsSink(net: Network, c: Config, c': Config)
    requires ExcessFits(net) && At(net.capacity, net.source, net.sink) == 0 && Laws(net, c) && ScanArc(net, c, c')
    requires SinkKeeps(net, c.s.cap)
    ensures SinkKeeps(net, c'.s.cap) && c'.s.height == c.s.height
  {
    var src, dst := c.place.src, net.adj[c.place.src][c.place.k];
    ArcInRange(net, Scanned(c), src, c.place.k);
    if Admissible(c.s.cap, c.s.height, src, dst) {
      hide FlowLaws, LabelLaws, Covered, ExcessFits, Valid;
      PushStep(net, Scanned(c), src, dst);
    }
  }

  lemma StepKeepsSink(net: Network, c: Config, c': Config)
    requires ExcessFits(net) && At(net.capacity, net.source, net.sink) == 0 && Laws(net, c) && Step(net, c, c')
    requires SinkKeeps(net, c.s.cap) && |c.s.height| == net.n && net.sink < net.n && c.s.height[net.sink] <= 1
    ensures SinkKeeps(net, c'.s.cap) && |c'.s.height| == net.n && c'.s.height[net.sink] <= 1
  {
    hide ExcessFits, SinkKeeps, ScanArc, Valid, Discharging, Consistent;
    if Global(net, c, c') {
      GlobalKeepsLaws(net, c, c');
    } else if ScanArc(net, c, c') {
      ArcKeepsSink(net, c, c');
    }
  }

  lemma {:induction false} RunKeepsSink(net: Network, run: seq<Config>, k: nat)
    requires ExcessFits(net) && At(net.capacity, net.source, net.sink) == 0 && IsRun(net, run) && k < |run|
    ensures SinkKeeps(net, run[k].s.cap) && |run[k].s.height| == net.n && net.sink < net.n && run[k].s.height[net.sink] <= 1
  {
    hide ExcessFits, Laws, IsStart, SinkKeeps;
    RunKeepsLaws(net, run, k);
    LawsGiveShape(net, run[k]);
    if k == 0 {
      StartKeepsLaws(net, run[0]);
    } else {
      RunKeepsSink(net, run, k - 1);
      RunKeepsLaws(net, run, k - 1);
      assert Step(net, run[k - 1], run[k - 1 + 1]);
      hide Step;
      StepKeepsSink(net, run[k - 1], run[k]);
    }
  }

  /** If the source has no edge to the sink every complete run ends with the maximum flow value in the
      sink, and the cut it is the capacity of. */
  lemma CompleteRunIsMaximal(net: Network, run: seq<Config>)
    requires ExcessFits(net) && At(net.capacity, net.source, net.sink) == 0 && IsComplete(net, run)
    ensures var s := Last(run).s;
            HasShape(net, s) && net.sink < net.n && IsMaxFlowValue(net, s.excess[net.sink])
            && s.excess[net.sink] == CutCapacity(net, SinkSide(net, s.cap))
  {
    hide ExcessFits, IsStart, Steps;
    RunKeepsLaws(net, run, |run| - 1);
    RunKeepsSink(net, run, |run| - 1);
    hide Consistent, Covered, SinkKeeps;
    NothingActiveIsMaximum(net, Last(run).s);
    LawsGiveShape(net, Last(run));
  }

  // ----- steps by their parts

  lemma ArcIsStep(net: Network, c: Config, c': Config)
    requires ScanArc(net, c, c')
    ensures Step(net, c, c')
  {
  }

  lemma RaiseIsStep(net: Network, c: Config, c': Config, arc: nat)
    requires Raise(net, c, c', arc)
    ensures Step(net, c, c')
  {
  }

  lemma PickIsStep(net: Network, c: Config, c': Config, u: nat)
    requires Pick(net, c, c', u)
    ensures Step(net, c, c')
  {
  }

  lemma GlobalIsStep(net: Network, c: Config, c': Config)
    requires Global(net, c, c')
    ensures Step(net, c, c')
  {
  }
}
