/** The preflow-push application: initial preflow, discharge with a current-arc cursor, relabel, and
    the periodic global relabel by a reverse breadth-first search. Worklists are multisets from which
    any item may be taken next. */
module PreflowPush {
  import opened Sums
  import opened FlowNetwork
  import opened Labels
  import opened PreflowState
  import opened ReverseBfs
  import opened Runs
  import opened SourceSinkEdge

  class Preflow {
    const net: Network
    var cap: map<Edge, int>
    var excess: seq<int>
    var height: seq<int>
    var current: seq<int>
    var bag: multiset<nat>
    var shouldGlobalRelabel: bool
    ghost var trace: seq<Config>

    ghost function Now(): State
      reads this
    {
      State(cap, excess, height, current, bag)
    }

    /** The steps so far make up a run that has led here. */
    ghost predicate Traced(place: Place)
      reads this
    {
      IsRun(net, trace) && Last(trace) == Config(Now(), place)
    }

    constructor (net: Network)
      requires Valid(net)
      ensures this.net == net && Fresh(net, Now()) && !shouldGlobalRelabel
      ensures cap == net.capacity && bag == multiset{} && |height| == |excess| == |current| == net.n
      ensures forall v: nat | v < net.n ::
                height[v] == (if v == net.source then net.n else 1) && excess[v] == 0 && current[v] == 0
    {
      this.net := net;
      cap := net.capacity;
      excess := seq(net.n, _ => 0);
      height := seq(net.n, i => if i == net.source then net.n else 1);
      current := seq(net.n, _ => 0);
      bag := multiset{};
      shouldGlobalRelabel := false;
      trace := [];
    }

    method ReduceCapacity(src: nat, dst: nat, amount: int)
      requires src != dst
      modifies `cap
      ensures MovesCapacity(old(cap), cap, src, dst, amount)
    {
      cap := cap[(src, dst) := At(cap, src, dst) - amount][(dst, src) := At(cap, dst, src) + amount];
    }

    /** Raises src to one above its lowest residual neighbour, or to n. */
    method Relabel(src: nat) returns (ghost arc: nat)
      requires HasShape(net, Now()) && src < net.n
      requires forall v: nat | v < net.n :: height[v] <= net.n
      requires exists j: nat :: j < |net.adj[src]| && At(cap, src, net.adj[src][j]) > 0
      modifies `height, `current
      ensures IsLowestArc(net, cap, old(height), src, |net.adj[src]|, arc)
      ensures var lift := old(height)[net.adj[src][arc]] + 1;
              && height == old(height)[src := if lift < net.n then lift else net.n]
              && current == if lift < net.n then old(current)[src := arc] else old(current)
      ensures Now() == AfterRelabel(net, old(Now()), src, arc)
    {
      var minHeight, minEdge := INT_MAX, 0;
      for k := 0 to |net.adj[src]|
        invariant minHeight == INT_MAX ==> forall j: nat | j < k :: At(cap, src, net.adj[src][j]) <= 0
        invariant minHeight != INT_MAX ==>
                    IsLowestArc(net, cap, height, src, k, minEdge) && minHeight == height[net.adj[src][minEdge]]
      {
        var dst := net.adj[src][k];
        if At(cap, src, dst) > 0 && height[dst] < minHeight {
          minHeight, minEdge := height[dst], k;
        }
      }
      arc := minEdge;
      minHeight := minHeight + 1;
      if minHeight < net.n {
        height := height[src := minHeight];
        current := current[src := minEdge];
      } else {
        height := height[src := net.n];
      }
    }

    /** Moves as much excess as the edge takes, and activates dst if it held none. */
    method PushAlong(src: nat, dst: nat, ghost k: nat)
      requires ExcessFits(net) && HasShape(net, Now()) && MayDischarge(net, src)
      requires Discharging(net, Scanned(src, k), src) && excess[src] > 0
      requires dst < net.n && Admissible(cap, height, src, dst)
      modifies `cap, `excess, `bag
      ensures src != dst && |excess| == |old(excess)|
      ensures var moved := old(excess)[src] - excess[src];
              && moved > 0 && MovesCapacity(old(cap), cap, src, dst, moved)
              && excess == old(excess)[src := old(excess)[src] - moved][dst := old(excess)[dst] + moved]
      ensures excess[src] >= 0 && At(cap, src, dst) >= 0 && (excess[src] == 0 || At(cap, src, dst) == 0)
      ensures forall v: nat ::
                bag[v] == old(bag)[v] + if v == dst && Inner(net, dst) && old(excess)[dst] == 0 then 1 else 0
      ensures var amount := PushAmount(old(excess)[src], At(old(cap), src, dst));
              amount == Min(old(excess)[src], At(old(cap), src, dst)) && Now() == AfterPush(net, old(Now()), src, dst, amount)
      ensures Discharging(net, Scanned(src, k), src)
      ensures Potential(net, excess, height) - excess[src] == Potential(net, old(excess), height) - old(excess)[src]
    {
      hide FlowLaws, LabelLaws, Covered, Valid, ExcessFits, MovesCapacity, Potential, Pushed;
      PushStep(net, Scanned(src, k), src, dst);
      var amount := PushAmount(excess[src], At(cap, src, dst));
      ghost var capBefore := cap;
      ReduceCapacity(src, dst, amount);
      MovesCapacityIsPushed(capBefore, cap, src, dst, amount);
      if dst != net.sink && dst != net.source && excess[dst] == 0 {
        bag := bag + multiset{dst};
      }
      excess := excess[src := excess[src] - amount];
      excess := excess[dst := excess[dst] + amount];
    }

    /** The state with src's cursor at arc k. */
    ghost function Scanned(src: nat, k: nat): State
      reads this
      requires src < |current|
    {
      Now().(current := current[src := k])
    }

    /** Appends the step that has just been taken to the trace. */
    ghost method Record(was: Config, place: Place)
      requires IsRun(net, trace) && Last(trace) == was && Runs.Step(net, was, Config(Now(), place))
      modifies `trace
      ensures Traced(place)
    {
      hide Runs.Step, IsStart;
      trace := trace + [Config(Now(), place)];
    }

    /** Looks at one arc and pushes along it if it is admissible. */
    method ScanNext(src: nat, k: nat) returns (finished: bool)
      requires ExcessFits(net) && HasShape(net, Now()) && MayDischarge(net, src) && excess[src] > 0
      requires 0 <= current[src] <= k < |net.adj[src]|
      requires Discharging(net, Scanned(src, k), src) && Traced(Scan(src, k))
      modifies `cap, `excess, `current, `bag, `trace
      ensures HasShape(net, Now()) && 0 <= excess[src] && (finished <==> excess[src] == 0)
      ensures current == if finished then old(current)[src := k] else old(current)
      ensures Discharging(net, Scanned(src, if finished then k else k + 1), src)
      ensures Traced(if finished then Between else Scan(src, k + 1))
      ensures Potential(net, excess, height) - excess[src] == Potential(net, old(excess), height) - old(excess)[src]
      ensures net.sink !in old(bag) ==> net.sink !in bag
    {
      hide FlowLaws, LabelLaws, Covered, Valid, Potential, ExcessFits, IsRun, Runs.Step;
      var dst := net.adj[src][k];
      ghost var was := Config(Now(), Scan(src, k));
      ArcInRange(net, Scanned(src, k), src, k);
      if At(cap, src, dst) != 0 && height[src] - 1 == height[dst] {
        PushAlong(src, dst, k);
        FieldsInRange(net, Scanned(src, k), src);
        if excess[src] == 0 {
          current := current[src := k];
          assert current[src := k] == current;
          ArcIsStep(net, was, Config(Now(), Between));
          Record(was, Between);
          return true;
        }
      }
      AdvanceStep(net, Scanned(src, k), src);
      assert current[src := k][src := k + 1] == current[src := k + 1];
      ArcIsStep(net, was, Config(Now(), Scan(src, k + 1)));
      Record(was, Scan(src, k + 1));
      return false;
    }

    /** One scan of src's arcs, from its cursor on: push along every admissible one. */
    method PushFromCursor(src: nat) returns (finished: bool)
      requires ExcessFits(net) && Discharging(net, Now(), src) && excess[src] > 0 && Traced(Scan(src, current[src]))
      modifies `cap, `excess, `current, `bag, `trace
      ensures Discharging(net, Now(), src) && 0 <= excess[src] && (finished <==> excess[src] == 0)
      ensures Potential(net, excess, height) - excess[src] == Potential(net, old(excess), height) - old(excess)[src]
      ensures !finished ==> current == old(current) && Discharging(net, AllArcsPassed(net, Now(), src), src)
      ensures Traced(if finished then Between else Scan(src, |net.adj[src]|))
      ensures net.sink !in old(bag) ==> net.sink !in bag
    {
      hide FlowLaws, LabelLaws, Covered, Valid, Potential, ExcessFits, IsRun, Runs.Step;
      finished := false;
      var k := current[src];
      assert current[src := k] == current;
      FieldsInRange(net, Now(), src);
      while k < |net.adj[src]| && !finished
        invariant HasShape(net, Now()) && 0 <= k <= |net.adj[src]| && 0 <= excess[src] && (finished <==> excess[src] == 0)
        invariant if finished then current == old(current)[src := k]
                  else 0 <= current[src] <= k && current == old(current)
        invariant Discharging(net, Scanned(src, k), src) && Traced(if finished then Between else Scan(src, k))
        invariant Potential(net, excess, height) - excess[src] == Potential(net, old(excess), height) - old(excess)[src]
        invariant net.sink !in old(bag) ==> net.sink !in bag
        decreases |net.adj[src]| - k, !finished
      {
        hide FlowLaws, LabelLaws, Covered, Valid, Potential, ExcessFits, IsRun, Traced;
        finished := ScanNext(src, k);
        k := if finished then k else k + 1;
      }
      if finished {
        assert Scanned(src, k) == Now();
      } else {
        CursorMayStepBack(net, AllArcsPassed(net, Now(), src), src, current[src]);
        assert current[src := k][src := current[src]] == current;
      }
    }

    /** Pushes excess off src until none is left or src is labelled n, and puts every node this makes
        active on the worklist. Without a relabel the potential drops; a relabel uses up room. */
    method Discharge(src: nat) returns (relabeled: bool)
      requires ExcessFits(net) && Discharging(net, Now(), src)
      requires Traced(if Live(net, excess, height, src) then Scan(src, current[src]) else Between)
      modifies `cap, `excess, `height, `current, `bag, `trace
      ensures Consistent(net, Now()) && Covered(net, excess, height, bag, {}) && Traced(Between)
      ensures old(Live(net, excess, height, src)) ==> excess[src] == 0 || height[src] == net.n
      ensures forall v: nat | v < net.n && v != src :: height[v] == old(height)[v]
      ensures !old(Live(net, excess, height, src)) ==> !relabeled && Now() == old(Now())
      ensures old(Live(net, excess, height, src)) ==>
                if relabeled then Room(net, height) < Room(net, old(height))
                else height == old(height) && Potential(net, excess, height) < Potential(net, old(excess), height)
      ensures net.sink !in old(bag) ==> net.sink !in bag
    {
      hide FlowLaws, LabelLaws, Covered, Valid, ExcessFits, IsRun, Runs.Step;
      FieldsInRange(net, Now(), src);
      relabeled := false;
      if excess[src] == 0 || height[src] >= net.n {
        InactiveIsCovered(net, excess, height, bag, src);
        return;
      }
      while true
        invariant Discharging(net, Now(), src) && excess[src] > 0 && height[src] < net.n && Traced(Scan(src, current[src]))
        invariant forall v: nat | v < net.n && v != src :: height[v] == old(height)[v]
        invariant if relabeled then Room(net, height) < Room(net, old(height)) else height == old(height)
        invariant !relabeled ==>
                    Potential(net, excess, height) - excess[src] <= Potential(net, old(excess), height) - old(excess)[src]
        invariant net.sink !in old(bag) ==> net.sink !in bag
        decreases net.n - height[src]
      {
        var finished := PushFromCursor(src);
        if finished {
          break;
        }
        ActiveHasResidualArc(net, Now(), src);
        ghost var before := Now();
        ghost var arc := Relabel(src);
        RelabelStep(net, before, src, arc);
        relabeled := true;
        ghost var was := Config(before, Scan(src, |net.adj[src]|));
        ghost var place := if height[src] == net.n then Between else Scan(src, current[src]);
        RaiseIsStep(net, was, Config(Now(), place), arc);
        Record(was, place);
        if height[src] == net.n {
          break;
        }
      }
      InactiveIsCovered(net, excess, height, bag, src);
    }

    /** Every label to n, the sink's to 0, every cursor to the front. */
    method ResetHeights()
      requires HasShape(net, Now())
      modifies `height, `current
      ensures HasShape(net, Now()) && ValidCursors()
      ensures forall v: nat | v < net.n :: height[v] == if v == net.sink then 0 else net.n
    {
      for v := 0 to net.n
        invariant HasShape(net, Now())
        invariant forall u: nat | u < v :: current[u] == 0 && height[u] == if u == net.sink then 0 else net.n
      {
        height := height[v := net.n];
        current := current[v := 0];
        if v == net.sink {
          height := height[v := 0];
        }
      }
    }

    ghost predicate ValidCursors()
      reads this
    {
      |current| == net.n && forall v: nat | v < net.n :: current[v] == 0
    }

    /** One step of thread i of the search: take a node, look at an edge, or compare-and-swap. */
    method SearchStep(queue: multiset<nat>, tasks: seq<Task>, i: nat) returns (queue': multiset<nat>, tasks': seq<Task>)
      requires SearchLaws(net, cap, Search(height, queue, tasks))
      requires i < |tasks| && (tasks[i] != Idle || queue != multiset{})
      modifies `height
      ensures |tasks'| == |tasks| && SearchLaws(net, cap, Search(height, queue', tasks'))
      ensures Progress(net, old(Search(height, queue, tasks)), Search(height, queue', tasks'))
    {
      hide SearchLaws, TaskLaws, Valid, Within, Progress;
      queue' := queue;
      SearchIndices(net, cap, Search(height, queue, tasks), i);
      match tasks[i] {
        case Idle =>
          var src :| src in queue;
          TakeStep(net, cap, Search(height, queue, tasks), i, src);
          queue', tasks' := queue - multiset{src}, tasks[i := Look(src, 0)];
        case Look(src, k) =>
          LookStep(net, cap, Search(height, queue, tasks), i);
          if k == |net.adj[src]| {
            tasks' := tasks[i := Idle];
          } else {
            var rdata := At(cap, net.adj[src][k], src);
            tasks' := tasks[i := if rdata > 0 then Lower(src, k, height[src] + 1) else Look(src, k + 1)];
          }
        case Lower(src, k, newHeight) =>
          LowerStep(net, cap, Search(height, queue, tasks), i);
          var dst := net.adj[src][k];
          tasks' := tasks[i := Look(src, k + 1)];
          if newHeight < height[dst] {
            height := height[dst := newHeight];
            queue' := queue + multiset{dst};
          }
      }
    }

    /** Reverse breadth-first search from the sink by the given number of threads, in any
        interleaving; labels end up being the residual distances. */
    method UpdateHeights(threads: nat)
      requires HasShape(net, Now()) && threads > 0 && cap.Keys == net.capacity.Keys
      requires forall v: nat | v < net.n :: height[v] == if v == net.sink then 0 else net.n
      modifies `height
      ensures ExactLabels(net, cap, height)
    {
      var queue := multiset{net.sink};
      var tasks: seq<Task> := seq(threads, _ => Idle);
      SearchStarts(net, cap, Search(height, queue, tasks));
      while queue != multiset{} || exists i :: 0 <= i < |tasks| && tasks[i] != Idle
        invariant |tasks| == threads && SearchLaws(net, cap, Search(height, queue, tasks))
        decreases HeightSum(height), |queue|, TotalWork(net, tasks)
      {
        hide SearchLaws;
        MeasureNonNegative(net, cap, Search(height, queue, tasks));
        var i :| 0 <= i < |tasks| && (tasks[i] != Idle || queue != multiset{});
        queue, tasks := SearchStep(queue, tasks, i);
      }
      SearchDone(net, cap, Search(height, queue, tasks));
    }

    /** Puts every active node on the worklist, once. */
    method FindWork()
      requires HasShape(net, Now()) && bag == multiset{} && forall v: nat | v < net.n :: excess[v] >= 0
      modifies `bag
      ensures forall v: nat :: bag[v] == if Active(net, excess, height, v) then 1 else 0
      ensures forall v: nat ::
                bag[v] == if v < net.n && v != net.sink && v != net.source && height[v] < net.n && excess[v] > 0 then 1 else 0
    {
      for v := 0 to net.n
        invariant forall u: nat :: bag[u] == if u < v && Active(net, excess, height, u) then 1 else 0
      {
        if v == net.sink || v == net.source || height[v] >= net.n {
          continue;
        }
        if excess[v] > 0 {
          bag := bag + multiset{v};
        }
      }
    }

    /** Replaces the labels by exact distances and the worklist by the active nodes. */
    method GlobalRelabel(threads: nat)
      requires Consistent(net, Now()) && threads > 0 && bag == multiset{}
      modifies `height, `current, `bag
      ensures Consistent(net, Now()) && Covered(net, excess, height, bag, {})
      ensures ExactLabels(net, cap, height) && height[net.sink] == 0 && ValidCursors()
      ensures forall v: nat :: bag[v] == if Active(net, excess, height, v) then 1 else 0
      ensures old(height)[net.sink] == 0 ==> forall v: nat | v < net.n :: old(height)[v] <= height[v]
    {
      ghost var s := Now();
      ResetHeights();
      UpdateHeights(threads);
      ExactIsValid(net, cap, height);
      if old(height)[net.sink] == 0 {
        ExactLabelsAreHighest(net, cap, old(height), height);
      }
      FindWork();
    }

    method SaturateEdge(dst: nat)
      requires dst < |excess| && dst != net.source
      modifies `cap, `excess, `bag
      ensures Now() == AfterSaturate(net, old(Now()), dst)
    {
      hide MovesCapacity, Pushed;
      var amount := At(cap, net.source, dst);
      ghost var capBefore := cap;
      ReduceCapacity(net.source, dst, amount);
      MovesCapacityIsPushed(capBefore, cap, net.source, dst, amount);
      excess := excess[dst := excess[dst] + amount];
      if amount > 0 {
        bag := bag + multiset{dst};
      }
    }

    method SaturateSource()
      requires Fresh(net, Now())
      modifies `cap, `excess, `bag
      ensures HasShape(net, old(Now())) && net.source < net.n
      ensures Now() == SaturatedUpTo(net, old(Now()), |net.adj[net.source]|)
    {
      EndsInRange(net);
      ghost var start := Now();
      assert HasShape(net, start);
      hide Valid, Fresh, SaturatedUpTo, AfterSaturate;
      NothingSaturated(net, start);
      for k := 0 to |net.adj[net.source]|
        invariant HasShape(net, Now()) && Now() == SaturatedUpTo(net, start, k)
      {
        hide Valid, Fresh, SaturatedUpTo, AfterSaturate;
        ghost var next := NextSaturated(net, start, k);
        SaturateEdge(net.adj[net.source][k]);
      }
    }

    /** Saturates every edge out of the source and lists the nodes that received something. */
    method InitializePreflow()
      requires Fresh(net, Now())
      modifies `cap, `excess, `bag, `trace
      ensures Consistent(net, Now()) && SinkKeeps(net, cap) && Traced(Between)
      ensures forall v: nat :: bag[v] == if At(net.capacity, net.source, v) > 0 then 1 else 0
      ensures forall v: nat | v < net.n && v != net.source :: excess[v] == At(net.capacity, net.source, v)
    {
      ghost var start := Now();
      SaturateSource();
      hide Fresh, SaturatedUpTo, SinkKeeps, IsRun;
      StartedBy(net, start, Config(Now(), Between));
      trace := [Config(Now(), Between)];
    }

    /** Takes some node from the worklist and discharges it, which drops a dead node and is progress on
        any other. */
    method DischargeNext()
      requires ExcessFits(net) && Consistent(net, Now()) && Covered(net, excess, height, bag, {})
      requires bag != multiset{} && Traced(Between)
      modifies `cap, `excess, `height, `current, `bag, `trace
      ensures Consistent(net, Now()) && Covered(net, excess, height, bag, {}) && Traced(Between)
      ensures Advanced(net, old(Now()), Now()) || (Now() == old(Now()).(bag := bag) && |bag| < |old(bag)|)
      ensures (forall u | u in old(bag) :: old(Live(net, excess, height, u))) ==> Advanced(net, old(Now()), Now())
      ensures net.sink !in old(bag) ==> net.sink !in bag && height[net.sink] == old(height)[net.sink]
    {
      hide FlowLaws, LabelLaws, Covered, Valid, ExcessFits, IsRun, Runs.Step, Room, Potential;
      EndsInRange(net);
      var src :| src in bag;
      TakeFromBag(net, excess, height, bag, src);
      ghost var was := Config(Now(), Between);
      bag := bag - multiset{src};
      FieldsInRange(net, Now(), src);
      ghost var place := if Live(net, excess, height, src) then Scan(src, current[src]) else Between;
      PickIsStep(net, was, Config(Now(), place), src);
      Record(was, place);
      var relabeled := Discharge(src);
    }

    /** The discharge loop: nodes in any order, until the worklist is empty or a global relabel is
        called for. */
    method DischargeAll()
      requires ExcessFits(net) && Consistent(net, Now()) && Covered(net, excess, height, bag, {}) && !shouldGlobalRelabel
      requires bag != multiset{} && (forall u | u in bag :: Live(net, excess, height, u)) && Traced(Between)
      modifies `cap, `excess, `height, `current, `bag, `shouldGlobalRelabel, `trace
      ensures Consistent(net, Now()) && Covered(net, excess, height, bag, {}) && Traced(Between)
      ensures Advanced(net, old(Now()), Now())
      ensures net.sink !in old(bag) ==> height[net.sink] == old(height)[net.sink]
      ensures !shouldGlobalRelabel ==> bag == multiset{}
    {
      hide FlowLaws, LabelLaws, Covered, Valid, ExcessFits, IsRun, Runs.Step;
      EndsInRange(net);
      ghost var started := false;
      while bag != multiset{} && !shouldGlobalRelabel
        invariant Consistent(net, Now()) && Covered(net, excess, height, bag, {}) && Traced(Between)
        invariant net.sink !in old(bag) ==> net.sink !in bag && height[net.sink] == old(height)[net.sink]
        invariant if started then Advanced(net, old(Now()), Now()) else Now() == old(Now()) && !shouldGlobalRelabel
        decreases Room(net, height), Potential(net, excess, height), |bag|
      {
        StateMeasureNonNegative(net, Now());
        DischargeNext();
        started := true;
        var budgetSpent: bool := *;
        shouldGlobalRelabel := budgetSpent;
      }
    }

    /** The whole first phase. For every discharge order, every placement of global relabels and every
        interleaving of their searches it ends, and what it did is a complete run. The sink then holds
        the maximum flow value, unless the source has an edge to the sink. */
    method Run(threads: nat)
      requires Fresh(net, Now()) && !shouldGlobalRelabel && threads > 0 && ExcessFits(net)
      modifies this
      ensures Consistent(net, Now()) && IsComplete(net, trace) && Last(trace).s == Now()
      ensures At(net.capacity, net.source, net.sink) == 0 ==>
                IsMaxFlowValue(net, excess[net.sink]) && excess[net.sink] == CutCapacity(net, SinkSide(net, cap))
      ensures NoSinkOut(net) && !SecondRoute(net) ==> IsMaxFlowValue(net, excess[net.sink])
    {
      hide FlowLaws, LabelLaws, Covered, Valid, Active, Room, Potential, ExcessFits, IsRun, Runs.Step;
      EndsInRange(net);
      ghost var start := Now();
      InitializePreflow();
      InitialBagIsLive(net, Now(), start);
      ghost var first := true;
      while bag != multiset{}
        invariant Consistent(net, Now()) && Covered(net, excess, height, bag, {}) && !shouldGlobalRelabel && Traced(Between)
        invariant forall u | u in bag :: Live(net, excess, height, u)
        invariant !first ==> height[net.sink] == 0 && net.sink !in bag
        decreases first, Room(net, height), Potential(net, excess, height)
      {
        hide FlowLaws, LabelLaws, Covered, Valid, Active, Room, Potential;
        ghost var before := Now();
        StateMeasureNonNegative(net, before);
        DischargeAll();
        if !shouldGlobalRelabel {
          break;
        }
        ghost var discharged := Now();
        bag := multiset{};
        GlobalRelabel(threads);
        GlobalIsStep(net, Config(discharged, Between), Config(Now(), Between));
        Record(Config(discharged, Between), Between);
        if !first {
          RaisingKeepsAdvance(net, before, discharged, height);
        }
        ActiveIsLive(net, excess, height);
        first := false;
        shouldGlobalRelabel := false;
      }
      RunEnds(net, trace, Now());
    }
  }
}
