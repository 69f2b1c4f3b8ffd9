/** What an edge of positive capacity from the source to the sink does. The sink is then on the initial
    worklist and is discharged like an inner node. For sinks without outgoing capacity: exactly when the
    sink can be reached in another way, too, some run ends below the maximum flow. */
module SourceSinkEdge {
  import opened Sums
  import opened FlowNetwork
  import opened Labels
  import opened PreflowState
  import opened Runs

  /** Nothing can flow out of the sink. */
  ghost predicate NoSinkOut(net: Network) {
    forall v: nat :: At(net.capacity, net.sink, v) == 0
  }

  /** Inner node v can be reached from the source over edges with capacity and at most k inner nodes
      before it. */
  ghost predicate FromSource(net: Network, v: nat, k: nat)
    decreases k
  {
    Inner(net, v) &&
    (At(net.capacity, net.source, v) > 0 ||
     (k > 0 && exists w: nat :: At(net.capacity, w, v) > 0 && FromSource(net, w, k - 1)))
  }

  /** The sink can be reached from the source in another way than by their common edge. */
  ghost predicate SecondRoute(net: Network) {
    exists v: nat, k: nat :: FromSource(net, v, k) && At(net.capacity, v, net.sink) > 0
  }

  // ----- without a second route

  ghost predicate Fed(net: Network, v: nat) {
    exists k: nat :: FromSource(net, v, k)
  }

  /** The nodes other than the source and those it reaches. */
  ghost function FarSide(net: Network): set<nat> {
    set v: nat | v < net.n && v != net.source && !Fed(net, v)
  }

  lemma OnlyTheEdgeEnters(net: Network, u: nat, v: nat)
    requires Valid(net) && !SecondRoute(net) && v in FarSide(net) && u < net.n && u !in FarSide(net)
    ensures At(net.capacity, u, v) == if u == net.source && v == net.sink then At(net.capacity, net.source, net.sink) else 0
  {
    assert 0 <= At(net.capacity, u, v);
    if u == net.source {
      if v != net.sink { assert !FromSource(net, v, 0); }
    } else {
      var k: nat :| FromSource(net, u, k);
      if v != net.sink { assert !FromSource(net, v, k + 1); }
    }
  }

  /** The cut around what the source reaches consists of the edge alone. */
  lemma CutIsTheEdge(net: Network)
    requires Valid(net) && !SecondRoute(net)
    ensures IsSinkSide(net, FarSide(net))
    ensures CutCapacity(net, FarSide(net)) == At(net.capacity, net.source, net.sink)
  {
    var t, n, c := FarSide(net), net.n, At(net.capacity, net.source, net.sink);
    assert forall k: nat :: !FromSource(net, net.sink, k);
    var zero := (i: nat) => 0;
    SumZero(n, zero);
    var entering := Entering(CapacityOf(net), t);
    forall v: nat | v < n ensures ColumnSums(entering, n)(v) == if v == net.sink then c else 0 {
      forall u: nat | u < n ensures entering(u, v) == if u == net.source && v == net.sink then c else 0 {
        if v in t && u !in t { OnlyTheEdgeEnters(net, u, v); }
      }
      if v == net.sink {
        SumPoint(n, zero, Column(entering, v), net.source, c);
      } else {
        SumEq(n, zero, Column(entering, v));
      }
    }
    SumPoint(n, zero, ColumnSums(entering, n), net.sink, c);
  }

  /** Whatever else happened, the sink holds what came over the edge and what flowed in from elsewhere. */
  lemma EdgeHasArrived(net: Network, cap: map<Edge, int>, excess: seq<int>)
    requires Valid(net) && IsPreflow(net, cap, excess) && SourceSaturated(net, cap) && SinkKeeps(net, cap)
    ensures excess[net.sink] >= At(net.capacity, net.source, net.sink)
  {
    var into := Column(FlowOf(net, cap), net.sink);
    forall u: nat | u < net.n ensures into(u) >= 0 {
      assert At(cap, u, net.sink) + At(cap, net.sink, u) == At(net.capacity, u, net.sink) + At(net.capacity, net.sink, u);
    }
    SumNonNegative(net.n, into);
    assert At(cap, net.source, net.sink) == 0;
    assert into(net.source) <= Sum(net.n, into);
    assert excess[net.sink] == NetInto(net, cap, net.sink);
  }

  lemma EdgeIsMaximal(net: Network, cap: map<Edge, int>, excess: seq<int>)
    requires Valid(net) && IsPreflow(net, cap, excess) && SourceSaturated(net, cap) && SinkKeeps(net, cap)
    requires !SecondRoute(net)
    ensures excess[net.sink] == At(net.capacity, net.source, net.sink) && IsMaxFlowValue(net, excess[net.sink])
  {
    CutIsTheEdge(net);
    EdgeHasArrived(net, cap, excess);
    var g := PreflowYieldsFlow(net, cap, excess);
    forall f: (nat, nat) -> int | IsFlow(net, f) ensures Value(net, f) <= At(net.capacity, net.source, net.sink) {
      FlowAtMostCut(net, f, FarSide(net));
    }
  }

  // ----- with a second route

  /** A route that avoids v is still there after a push out of v. */
  lemma {:induction false} RouteStays(net: Network, cap: map<Edge, int>, v: nat, w: nat, d: nat, x: nat, j: nat)
    requires v != w && j <= d && Within(net, cap, x, j) && !Within(net, cap, v, d)
    ensures Within(net, Pushed(cap, v, w, 1), x, j)
    decreases j
  {
    if x == v { WithinGrows(net, cap, v, j, d); }
    if x != net.sink {
      var y: nat :| y < net.n && At(cap, x, y) > 0 && Within(net, cap, y, j - 1);
      RouteStays(net, cap, v, w, d, y, j - 1);
      assert At(Pushed(cap, v, w, 1), x, y) > 0;
    }
  }

  /** A unit of excess at a node that reaches the sink can be brought there. */
  lemma {:induction false} Deliver(net: Network, cap: map<Edge, int>, excess: seq<int>, v: nat, k: nat)
      returns (cap': map<Edge, int>, excess': seq<int>)
    requires Valid(net) && IsPreflow(net, cap, excess) && SourceSaturated(net, cap) && SinkKeeps(net, cap)
    requires Inner(net, v) && excess[v] > 0 && Within(net, cap, v, k)
    ensures IsPreflow(net, cap', excess') && SinkKeeps(net, cap') && excess'[net.sink] > excess[net.sink]
    decreases k
  {
    var w, d := FirstHop(net, cap, v, k);
    PushKeepsPreflow(net, cap, excess, v, w, 1);
    cap', excess' := Pushed(cap, v, w, 1), excess[v := excess[v] - 1][w := excess[w] + 1];
    if w != net.sink {
      RouteStays(net, cap, v, w, d, w, d);
      var cap1, excess1 := cap', excess';
      assert excess1[w] > 0 && excess1[net.sink] == excess[net.sink];
      hide IsPreflow, SinkKeeps, SourceSaturated, Valid, Within, Pushed;
      cap', excess' := Deliver(net, cap1, excess1, w, d);
    }
  }

  /** The first edge of a shortest residual path to the sink. */
  lemma FirstHop(net: Network, cap: map<Edge, int>, v: nat, k: nat) returns (w: nat, d: nat)
    requires Valid(net) && IsResidual(net, cap) && SourceSaturated(net, cap) && Inner(net, v) && Within(net, cap, v, k)
    ensures d < k && w < net.n && w != net.source && w != v && (v, w) in net.capacity && At(cap, v, w) > 0
    ensures Within(net, cap, w, d) && !Within(net, cap, v, d)
  {
    var e := SomeExactDistance(net, cap, v, k);
    d := e - 1;
    w :| w < net.n && At(cap, v, w) > 0 && Within(net, cap, w, d);
    assert !Within(net, cap, net.source, d);
  }

  /** A route forward from the source is a route backward from the sink. */
  lemma {:induction false} RouteBack(net: Network, cap: map<Edge, int>, v: nat, k: nat, j: nat) returns (u: nat, m: nat)
    requires Valid(net) && FromSource(net, v, k) && Within(net, cap, v, j)
    requires forall x: nat, y: nat | x != net.source && At(net.capacity, x, y) > 0 :: At(cap, x, y) > 0
    ensures Inner(net, u) && At(net.capacity, net.source, u) > 0 && Within(net, cap, u, m)
    decreases k
  {
    if At(net.capacity, net.source, v) > 0 {
      u, m := v, j;
    } else {
      var w: nat :| At(net.capacity, w, v) > 0 && FromSource(net, w, k - 1);
      assert Within(net, cap, w, j + 1);
      u, m := RouteBack(net, cap, w, k - 1, j + 1);
    }
  }

  /** With a second route more can flow than the edge carries. */
  lemma MoreThanTheEdge(net: Network, c: Config)
    requires IsStart(net, c) && SecondRoute(net)
    ensures !IsMaxFlowValue(net, At(net.capacity, net.source, net.sink))
  {
    StartKeepsLaws(net, c);
    var v: nat, k: nat :| FromSource(net, v, k) && At(net.capacity, v, net.sink) > 0;
    assert At(c.s.cap, v, net.sink) > 0 && net.sink < net.n && Within(net, c.s.cap, net.sink, 0);
    assert Within(net, c.s.cap, v, 1);
    var u, m := RouteBack(net, c.s.cap, v, k, 1);
    var cap, excess := Deliver(net, c.s.cap, c.s.excess, u, m);
    var f := PreflowYieldsFlow(net, cap, excess);
    assert Value(net, f) > At(net.capacity, net.source, net.sink);
  }

  // ----- the sink first

  /** Scanning the sink finds nothing to push along, since its only residual arc leads to the source;
      relabelling lifts it to n, and the rest of the run cannot reach it there. */
  lemma {:induction false} ScanSink(net: Network, c: Config) returns (p: seq<Config>)
    requires ExcessFits(net) && Laws(net, c) && c.place.Scan? && c.place.src == net.sink && c.s.height[net.sink] == 1
    requires forall v: nat | v != net.source :: At(c.s.cap, net.sink, v) == 0
    ensures net.sink < |c.s.excess|
    ensures |p| > 0 && p[0] == c && LocalSteps(net, p) && HasShape(net, Last(p).s)
    ensures Last(p).place == Between && Last(p).s.bag == multiset{}
    ensures Last(p).s.excess[net.sink] == c.s.excess[net.sink]
    decreases |net.adj[net.sink]| - c.place.k
  {
    LawsGiveShape(net, c);
    var k := c.place.k;
    if k < |net.adj[net.sink]| {
      ArcInRange(net, Scanned(c), net.sink, k);
      SourceIsHigh(net, c);
      var c' := NextPass(net, c);
      hide Laws, ExcessFits, LocalStep;
      p := ScanSink(net, c');
      LocalStepsPrepend(net, c, p);
      p := [c] + p;
    } else {
      var c' := NextRaise(net, c);
      hide Laws, ExcessFits, LocalStep;
      p := Drain(net, c');
      LocalStepsPrepend(net, c, p);
      p := [c] + p;
    }
  }

  lemma SourceIsHigh(net: Network, c: Config)
    requires Laws(net, c) && c.place.Scan?
    ensures net.source < |c.s.height| && c.s.height[net.source] == net.n > 1
  {
  }

  lemma TakeSink(net: Network) returns (start: Config, c: Config)
    requires Valid(net) && NoSinkOut(net) && At(net.capacity, net.source, net.sink) > 0
    ensures IsStart(net, start) && Pick(net, start, c, net.sink) && Laws(net, c)
    ensures c.place.Scan? && c.place.src == net.sink < net.n && HasShape(net, c.s) && c.s.height[net.sink] == 1
    ensures c.s.excess[net.sink] == At(net.capacity, net.source, net.sink)
    ensures forall v: nat | v != net.source :: At(c.s.cap, net.sink, v) == 0
  {
    start := StartExists(net);
    StartKeepsLaws(net, start);
    LawsGiveShape(net, start);
    hide IsStart, Consistent, Covered;
    c := Config(start.s.(bag := start.s.bag - multiset{net.sink}), Scan(net.sink, start.s.current[net.sink]));
    assert Pick(net, start, c, net.sink);
    PickKeepsLaws(net, start, c, net.sink);
  }

  /** For every network whose sink has no outgoing capacity and an edge from the source: the run that
      discharges the sink first, without a global relabel, ends with just what came over that edge. */
  lemma SinkFirst(net: Network) returns (run: seq<Config>)
    requires Valid(net) && ExcessFits(net) && NoSinkOut(net) && At(net.capacity, net.source, net.sink) > 0
    ensures IsComplete(net, run) && LocalSteps(net, run) && |run| > 1 && Pick(net, run[0], run[1], net.sink)
    ensures HasShape(net, Last(run).s) && net.sink < net.n
    ensures Last(run).s.excess[net.sink] == At(net.capacity, net.source, net.sink)
  {
    var start, c := TakeSink(net);
    hide Laws, ExcessFits, IsStart, Pick, NoSinkOut;
    var p := ScanSink(net, c);
    LocalStepsPrepend(net, start, p);
    run := [start] + p;
    LocalStepsAreSteps(net, run);
  }

  // ----- the result

  ghost predicate EndsAtMaximum(net: Network, run: seq<Config>) {
    && |run| > 0 && HasShape(net, Last(run).s) && net.sink < net.n
    && IsMaxFlowValue(net, Last(run).s.excess[net.sink])
  }

  lemma WithoutSecondRoute(net: Network, run: seq<Config>)
    requires ExcessFits(net) && NoSinkOut(net) && !SecondRoute(net) && IsComplete(net, run)
    ensures EndsAtMaximum(net, run)
  {
    RunKeepsLaws(net, run, |run| - 1);
    var s := Last(run).s;
    assert IsPreflow(net, s.cap, s.excess) && SourceSaturated(net, s.cap) && HasShape(net, s);
    assert SinkKeeps(net, s.cap);
    hide SecondRoute, IsComplete;
    EdgeIsMaximal(net, s.cap, s.excess);
  }

  /** What is known of the state in which a complete run ends. */
  lemma RunEnds(net: Network, run: seq<Config>, s: State)
    requires ExcessFits(net) && IsComplete(net, run) && Last(run).s == s
    ensures Valid(net) && HasShape(net, s) && net.sink < net.n
    ensures At(net.capacity, net.source, net.sink) == 0 ==>
              IsMaxFlowValue(net, s.excess[net.sink]) && s.excess[net.sink] == CutCapacity(net, SinkSide(net, s.cap))
    ensures NoSinkOut(net) && !SecondRoute(net) ==> IsMaxFlowValue(net, s.excess[net.sink])
  {
    RunKeepsLaws(net, run, |run| - 1);
    LawsGiveShape(net, Last(run));
    hide ExcessFits, IsComplete, Laws, NoSinkOut, SecondRoute, IsMaxFlowValue;
    if At(net.capacity, net.source, net.sink) == 0 { CompleteRunIsMaximal(net, run); }
    if NoSinkOut(net) && !SecondRoute(net) { WithoutSecondRoute(net, run); }
  }

  /** Every run ends with the maximum flow value in the sink if and only if the source has no edge to
      the sink, or no other way to it. */
  lemma EveryRunIsMaximalIff(net: Network)
    requires Valid(net) && ExcessFits(net) && NoSinkOut(net)
    ensures (forall run: seq<Config> | IsComplete(net, run) :: EndsAtMaximum(net, run))
       <==> At(net.capacity, net.source, net.sink) == 0 || !SecondRoute(net)
  {
    hide ExcessFits, NoSinkOut, SecondRoute;
    assert 0 <= At(net.capacity, net.source, net.sink);
    if At(net.capacity, net.source, net.sink) == 0 {
      forall run: seq<Config> | IsComplete(net, run) ensures EndsAtMaximum(net, run) {
        CompleteRunIsMaximal(net, run);
      }
    } else if !SecondRoute(net) {
      forall run: seq<Config> | IsComplete(net, run) ensures EndsAtMaximum(net, run) {
        WithoutSecondRoute(net, run);
      }
    } else {
      var run := SinkFirst(net);
      MoreThanTheEdge(net, run[0]);
      assert !EndsAtMaximum(net, run);
    }
  }

  /** Whether every node that initializePreflow lists is an inner node depends on that edge alone. */
  lemma SinkIsListed(net: Network, c: Config)
    requires IsStart(net, c)
    ensures (forall u | u in c.s.bag :: Inner(net, u)) <==> At(net.capacity, net.source, net.sink) == 0
  {
    StartKeepsLaws(net, c);
    assert 0 <= At(net.capacity, net.source, net.sink);
    assert net.sink in c.s.bag <==> At(net.capacity, net.source, net.sink) > 0;
    forall u | u in c.s.bag ensures u < net.n && u != net.source {
      assert (net.source, u) in net.capacity;
    }
  }

  // ----- the smallest instance

  /** Unit edges from the source 0 to the sink 1 and to 2, and from 2 to 1. */
  function Triangle(): Network {
    Network(3, 0, 1, [[1, 2], [0, 2], [0, 1]],
            map[(0, 1) := 1, (1, 0) := 0, (0, 2) := 1, (2, 0) := 0, (2, 1) := 1, (1, 2) := 0])
  }

  /** Two units can reach the sink. */
  function BothPaths(u: nat, v: nat): int {
    if u == 0 && (v == 1 || v == 2) then 1
    else if v == 0 && (u == 1 || u == 2) then -1
    else if u == 2 && v == 1 then 1
    else if u == 1 && v == 2 then -1
    else 0
  }

  lemma SumOfThree(f: nat -> int)
    ensures Sum(3, f) == f(0) + f(1) + f(2)
  {
    assert Sum(0, f) == 0;
    assert Sum(1, f) == f(0);
    assert Sum(2, f) == f(0) + f(1);
  }

  lemma TriangleEdges()
    ensures forall u: nat, v: nat :: (u, v) in Triangle().capacity <==> u < 3 && v < 3 && u != v
    ensures forall u: nat, v: nat ::
              At(Triangle().capacity, u, v) == if (u == 0 && (v == 1 || v == 2)) || (u == 2 && v == 1) then 1 else 0
  {
  }

  lemma TriangleArcs()
    ensures forall u: nat | u < 3 :: |Triangle().adj[u]| == 2 && Triangle().adj[u][0] < Triangle().adj[u][1] < 3
    ensures forall u: nat, v: nat | u < 3 :: v in Triangle().adj[u] <==> v < 3 && v != u
  {
  }

  lemma TriangleIsValid()
    ensures Valid(Triangle()) && ExcessFits(Triangle()) && NoSinkOut(Triangle())
    ensures At(Triangle().capacity, 0, 1) == 1 && SecondRoute(Triangle())
  {
    var net := Triangle();
    assert net.n == 3 && net.source == 0 && net.sink == 1 && |net.adj| == 3;
    TriangleEdges();
    TriangleArcs();
    hide Triangle;
    forall u: nat, k: nat | u < 3 && k < |net.adj[u]|
      ensures net.adj[u][k] < 3 && net.adj[u][k] != u && (u, net.adj[u][k]) in net.capacity
    {
      assert net.adj[u][k] in net.adj[u];
    }
    SumOfThree(Row(CapacityOf(net), 0));
    assert FromSource(net, 2, 0);
  }

  lemma TwoUnitsFit()
    ensures IsFlow(Triangle(), BothPaths) && Value(Triangle(), BothPaths) == 2
  {
    SumOfThree(Column(BothPaths, 1));
    SumOfThree(Column(BothPaths, 2));
  }

  /** On this network a run ends with one unit in the sink. */
  lemma FlowIsLost() returns (run: seq<Config>)
    ensures Valid(Triangle()) && ExcessFits(Triangle())
    ensures IsComplete(Triangle(), run) && |run| > 1 && Pick(Triangle(), run[0], run[1], 1)
    ensures 1 < |Last(run).s.excess| && Last(run).s.excess[1] == 1 && !IsMaxFlowValue(Triangle(), 1)
  {
    TriangleIsValid();
    TwoUnitsFit();
    assert Triangle().sink == 1 && Triangle().source == 0;
    hide Triangle, Valid, ExcessFits, NoSinkOut, SecondRoute, IsComplete, Pick, IsFlow, Value;
    run := SinkFirst(Triangle());
  }
}
