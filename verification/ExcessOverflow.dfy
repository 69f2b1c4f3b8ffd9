/** Why excess is required to fit an int: two full feeders fill a collector with twice the largest int,
    and the cast in discharge then turns that into an amount of -2. */
module ExcessOverflow {
  import opened Sums
  import opened FlowNetwork
  import opened Labels
  import opened PreflowState
  import opened Runs

  /** Source 0, sink 1, feeders 2 and 3, collector 4. */
  function Funnel(): Network {
    Network(5, 0, 1, [[2, 3], [4], [0, 4], [0, 4], [2, 3, 1]],
            map[(0, 2) := INT_MAX, (2, 0) := 0, (0, 3) := INT_MAX, (3, 0) := 0,
                (2, 4) := INT_MAX, (4, 2) := 0, (3, 4) := INT_MAX, (4, 3) := 0, (4, 1) := 5, (1, 4) := 0])
  }

  predicate Feeder(u: nat) { u == 2 || u == 3 }

  predicate Linked(u: nat, v: nat) {
    (Feeder(u) && (v == 0 || v == 4)) || (Feeder(v) && (u == 0 || u == 4)) || (u == 4 && v == 1) || (u == 1 && v == 4)
  }

  lemma FunnelEdges()
    ensures forall u: nat, v: nat :: (u, v) in Funnel().capacity <==> Linked(u, v)
    ensures forall u: nat, v: nat ::
              At(Funnel().capacity, u, v) ==
                if (u == 0 && Feeder(v)) || (Feeder(u) && v == 4) then INT_MAX else if u == 4 && v == 1 then 5 else 0
  {
  }

  lemma FunnelArcs()
    ensures var net := Funnel();
            && net.n == 5 && net.source == 0 && net.sink == 1 && |net.adj| == 5
            && net.adj[0] == [2, 3] && net.adj[1] == [4] && net.adj[2] == [0, 4] && net.adj[3] == [0, 4]
            && net.adj[4] == [2, 3, 1]
  {
  }

  lemma FunnelLists(u: nat)
    requires u < 5
    ensures var out := Funnel().adj[u];
            && (forall v: nat :: v in out <==> Linked(u, v))
            && (forall k: nat | k < |out| :: Linked(u, out[k]))
            && (forall j: nat, k: nat | j < k < |out| :: out[j] != out[k])
  {
  }

  lemma FunnelIsValid()
    ensures Valid(Funnel()) && At(Funnel().capacity, Funnel().source, Funnel().sink) == 0
  {
    var net := Funnel();
    assert net.n == 5 && net.source == 0 && net.sink == 1 && |net.adj| == 5;
    FunnelEdges();
    hide Funnel;
    forall u: nat | u < 5
      ensures forall v: nat :: v in net.adj[u] <==> Linked(u, v)
      ensures forall k: nat | k < |net.adj[u]| :: Linked(u, net.adj[u][k])
      ensures forall j: nat, k: nat | j < k < |net.adj[u]| :: net.adj[u][j] != net.adj[u][k]
    {
      FunnelLists(u);
    }
    assert forall u: nat, v: nat | Linked(u, v) :: u < 5 && v < 5 && u != v && Linked(v, u);
  }

  lemma FunnelDoesNotFit()
    ensures !ExcessFits(Funnel())
  {
    var net := Funnel();
    FunnelEdges();
    FunnelArcs();
    hide Funnel;
    assert MayDischarge(net, 4);
  }

  /** A feeder finds no admissible arc, is relabelled to 2, and pushes all it has to the collector. */
  ghost function Fed(net: Network, s: State, f: nat): State
    requires f < |s.current| && f < |s.height| && f < |s.excess| && 4 < |s.excess|
  {
    AfterPush(net, s.(bag := s.bag - multiset{f}, height := s.height[f := 2], current := s.current[f := 1]), f, 4, INT_MAX)
  }

  lemma FeederPushes(net: Network, c: Config, f: nat) returns (p: seq<Config>)
    requires net == Funnel() && HasShape(net, c.s) && c.place == Between && Feeder(f) && f in c.s.bag
    requires c.s.excess[f] == INT_MAX && c.s.height[f] == 1 && c.s.current[f] == 0
    requires c.s.height[0] == 5 && c.s.height[4] == 1
    requires At(c.s.cap, f, 0) > 0 && At(c.s.cap, f, 4) == INT_MAX
    ensures |p| > 0 && p[0] == c && LocalSteps(net, p) && Last(p) == Config(Fed(net, c.s, f), Between)
  {
    hide Funnel, Valid;
    FunnelArcs();
    assert net.adj[f] == [0, 4];
    var s3 := c.s.(bag := c.s.bag - multiset{f});
    var s4 := s3.(height := s3.height[f := 2], current := s3.current[f := 1]);
    var c3, c4, c5 := Config(s3, Scan(f, 2)), Config(s4, Scan(f, 1)), Config(Fed(net, c.s, f), Between);
    p := FeederScans(net, c, f);
    FeederRises(net, c3, c4, f);
    hide LocalStep, Fed, ScanArc;
    p := p + [c4] + [c5];
  }

  lemma FeederScans(net: Network, c: Config, f: nat) returns (p: seq<Config>)
    requires HasShape(net, c.s) && net.n == 5 && c.place == Between && f < 5 && net.adj[f] == [0, 4] && f in c.s.bag
    requires c.s.excess[f] > 0 && c.s.height[f] == 1 && c.s.current[f] == 0 && c.s.height[0] == 5 && c.s.height[4] == 1
    ensures |p| > 0 && p[0] == c && LocalSteps(net, p)
    ensures Last(p) == Config(c.s.(bag := c.s.bag - multiset{f}), Scan(f, 2))
  {
    hide Valid;
    var s := c.s.(bag := c.s.bag - multiset{f});
    var c1, c2, c3 := Config(s, Scan(f, 0)), Config(s, Scan(f, 1)), Config(s, Scan(f, 2));
    assert Pick(net, c, c1, f) && ScanArc(net, c1, c2) && ScanArc(net, c2, c3);
    p := [c, c1, c2, c3];
  }

  lemma FeederRises(net: Network, c: Config, c': Config, f: nat)
    requires HasShape(net, c.s) && net.n == 5 && f < 5 && f != 4 && net.adj[f] == [0, 4] && c.place == Scan(f, 2)
    requires c.s.height[f] == 1 && c.s.height[0] == 5 && c.s.height[4] == 1 && At(c.s.cap, f, 4) > 0
    requires c' == Config(c.s.(height := c.s.height[f := 2], current := c.s.current[f := 1]), Scan(f, 1))
    ensures LocalStep(net, c, c')
  {
    hide Valid;
    assert IsLowestArc(net, c.s.cap, c.s.height, f, 2, 1) && c'.s == AfterRelabel(net, c.s, f, 1);
    assert Raise(net, c, c', 1);
  }

  /** The collector finds no admissible arc either, is relabelled to 2, and "pushes" -2 to the sink. */
  lemma CollectorPushes(net: Network, c: Config) returns (p: seq<Config>)
    requires net == Funnel() && HasShape(net, c.s) && c.place == Between && 4 in c.s.bag
    requires c.s.excess[4] == 2 * INT_MAX && c.s.height == [5, 1, 2, 2, 1] && c.s.current[4] == 0
    requires At(c.s.cap, 4, 1) == 5 && At(c.s.cap, 4, 2) > 0 && At(c.s.cap, 4, 3) > 0
    ensures |p| > 0 && p[0] == c && LocalSteps(net, p)
    ensures Last(p).s.cap == Pushed(c.s.cap, 4, 1, -2)
  {
    FunnelArcs();
    hide Funnel, Valid;
    var s1 := c.s.(bag := c.s.bag - multiset{4});
    var c1, c2 := Config(s1, Scan(4, 0)), Config(s1, Scan(4, 1));
    var c3, c4 := Config(s1, Scan(4, 2)), Config(s1, Scan(4, 3));
    var s5 := s1.(height := s1.height[4 := 2], current := s1.current[4 := 2]);
    var c5 := Config(s5, Scan(4, 2));
    assert Pick(net, c, c1, 4);
    assert ScanArc(net, c1, c2) && ScanArc(net, c2, c3) && ScanArc(net, c3, c4);
    assert IsLowestArc(net, s1.cap, s1.height, 4, 3, 2) && s5 == AfterRelabel(net, s1, 4, 2);
    assert Raise(net, c4, c5, 2);
    assert PushAmount(2 * INT_MAX, 5) == -2;
    var c6 := Config(AfterPush(net, s5, 4, 1, -2), Scan(4, 3));
    assert ScanArc(net, c5, c6);
    hide Pick, ScanArc, Raise;
    p := [c, c1, c2, c3, c4, c5, c6];
  }

  lemma FunnelCapacities(c: Config)
    requires IsStart(Funnel(), c)
    ensures At(c.s.cap, 2, 0) > 0 && At(c.s.cap, 3, 0) > 0 && At(c.s.cap, 2, 4) == At(c.s.cap, 3, 4) == INT_MAX
    ensures At(c.s.cap, 4, 2) == At(c.s.cap, 4, 3) == 0 && At(c.s.cap, 4, 1) == 5 && At(c.s.cap, 1, 4) == 0
  {
    var net := Funnel();
    FunnelEdges();
    assert net.source == 0;
    hide Funnel;
    StartKeepsLaws(net, c);
    assert At(c.s.cap, 0, 2) + At(c.s.cap, 2, 0) == INT_MAX && At(c.s.cap, 0, 3) + At(c.s.cap, 3, 0) == INT_MAX;
  }

  lemma FunnelSource()
    ensures forall v: nat :: At(Funnel().capacity, 0, v) == if v == 2 || v == 3 then INT_MAX else 0
  {
    FunnelEdges();
  }

  lemma FunnelStart() returns (c: Config)
    ensures IsStart(Funnel(), c) && HasShape(Funnel(), c.s) && c.place == Between
    ensures c.s.height == [5, 1, 1, 1, 1] && c.s.current == [0, 0, 0, 0, 0] && c.s.excess == [0, 0, INT_MAX, INT_MAX, 0]
    ensures c.s.bag == multiset{2, 3}
  {
    hide Funnel, At, IsStart, Valid;
    FunnelIsValid();
    FunnelSource();
    FunnelArcs();
    c := StartExists(Funnel());
    StartNodes(Funnel(), c);
    assert c.s.bag == multiset{2, 3};
  }

  lemma StartNodes(net: Network, c: Config)
    requires IsStart(net, c)
    ensures HasShape(net, c.s) && net.source < net.n && c.place == Between
    ensures forall v: nat | v < net.n ::
              && c.s.height[v] == (if v == net.source then net.n else 1) && c.s.current[v] == 0
              && c.s.excess[v] == if v == net.source then 0 else At(net.capacity, net.source, v)
    ensures forall v: nat :: c.s.bag[v] == if At(net.capacity, net.source, v) > 0 then 1 else 0
  {
    StartKeepsLaws(net, c);
  }

  /** A run of the first phase on a valid network without an edge from source to sink in which a
      residual capacity drops below zero. */
  lemma CapacityIsLost() returns (run: seq<Config>)
    ensures Valid(Funnel()) && At(Funnel().capacity, Funnel().source, Funnel().sink) == 0 && !ExcessFits(Funnel())
    ensures IsRun(Funnel(), run) && LocalSteps(Funnel(), run)
    ensures At(Last(run).s.cap, 1, 4) == -2 && !IsPreflow(Funnel(), Last(run).s.cap, Last(run).s.excess)
  {
    FunnelIsValid();
    FunnelDoesNotFit();
    FunnelEdges();
    FunnelArcs();
    var net := Funnel();
    hide Funnel, Valid, IsStart, LocalStep, ExcessFits;
    var c := FunnelStart();
    FunnelCapacities(c);
    var p := FeederPushes(net, c, 2);
    var q := FeederPushes(net, Last(p), 3);
    var r := CollectorPushes(net, Last(q));
    run := p + q[1..] + r[1..];
    LocalStepsAreSteps(net, run);
  }
}
