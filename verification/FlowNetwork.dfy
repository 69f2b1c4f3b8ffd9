/** Flow networks, residual capacities, preflows and cuts: the mathematics that the preflow-push
    code is measured against. */
module FlowNetwork {
  import opened Sums

  const INT_MAX := 0x7FFF_FFFF

  type Edge = (nat, nat)

  /** The input graph. The adjacency lists fix the order in which the code scans edges; edge data is
      keyed by its end points. */
  datatype Network = Network(n: nat, source: nat, sink: nat, adj: seq<seq<nat>>, capacity: map<Edge, int>)

  /** A simple graph with both directions of every edge present and no self loops; capacities are
      non-negative 32-bit integers that stay representable when one direction takes over the
      other's. */
  ghost predicate Valid(net: Network) {
    && |net.adj| == net.n < INT_MAX && net.source < net.n && net.sink < net.n && net.source != net.sink
    && (forall u: nat, k: nat | u < net.n && k < |net.adj[u]| ::
          net.adj[u][k] < net.n && net.adj[u][k] != u && (u, net.adj[u][k]) in net.capacity)
    && (forall u: nat, j: nat, k: nat | u < net.n && j < k < |net.adj[u]| :: net.adj[u][j] != net.adj[u][k])
    && (forall u: nat, v: nat :: (u, v) in net.capacity ==> u < net.n && v in net.adj[u] && (v, u) in net.capacity)
    && (forall u: nat, v: nat ::
          0 <= At(net.capacity, u, v) && At(net.capacity, u, v) + At(net.capacity, v, u) <= INT_MAX)
  }

  /** Edge data, 0 where there is no edge. */
  function At(m: map<Edge, int>, u: nat, v: nat): int {
    if (u, v) in m then m[(u, v)] else 0
  }

  ghost function OthersThan(u: nat, n: nat): (others: seq<nat>)
    ensures forall v: nat :: v in others <==> v < n && v != u
    ensures forall k: nat | k < |others| :: others[k] < n && others[k] != u
    ensures forall j: nat, k: nat | j < k < |others| :: others[j] != others[k]
  {
    if n == 0 then [] else if n - 1 == u then OthersThan(u, n - 1) else OthersThan(u, n - 1) + [n - 1]
  }

  ghost function AllEdges(n: nat, c: (nat, nat) -> int): (m: map<Edge, int>)
    ensures forall u: nat, v: nat :: (u, v) in m <==> u < n && v < n && u != v
    ensures forall u: nat, v: nat :: At(m, u, v) == if u < n && v < n && u != v then c(u, v) else 0
  {
    map u: nat, v: nat | u < n && v < n && u != v :: (u, v) := c(u, v)
  }

  /** Any capacities that fit make up such a graph, with zeros where there is no edge. */
  lemma AnyCapacities(n: nat, source: nat, sink: nat, c: (nat, nat) -> int) returns (net: Network)
    requires n < INT_MAX && source < n && sink < n && source != sink
    requires forall u: nat, v: nat | u < n && v < n :: 0 <= c(u, v) && c(u, v) + c(v, u) <= INT_MAX
    ensures Valid(net) && net.n == n && net.source == source && net.sink == sink
    ensures forall u: nat, v: nat | u < n && v < n && u != v :: At(net.capacity, u, v) == c(u, v)
  {
    hide OthersThan, AllEdges, At;
    var adj := seq(n, u requires 0 <= u < n => OthersThan(u, n));
    net := Network(n, source, sink, adj, AllEdges(n, c));
    assert forall u: nat | u < n :: adj[u] == OthersThan(u, n);
  }

  /** Residual capacities: the two directions of an edge keep their total, and none is negative. */
  ghost predicate IsResidual(net: Network, cap: map<Edge, int>) {
    && cap.Keys == net.capacity.Keys
    && (forall u: nat, v: nat :: 0 <= At(cap, u, v))
    && (forall u: nat, v: nat ::
          At(cap, u, v) + At(cap, v, u) == At(net.capacity, u, v) + At(net.capacity, v, u))
  }

  /** The flow on every pair of nodes that a residual graph stands for. */
  ghost function FlowOf(net: Network, cap: map<Edge, int>): (nat, nat) -> int {
    (u: nat, v: nat) => At(net.capacity, u, v) - At(cap, u, v)
  }

  ghost function NetInto(net: Network, cap: map<Edge, int>, v: nat): int {
    Sum(net.n, Column(FlowOf(net, cap), v))
  }

  /** Every node but the source holds exactly what flowed in and did not flow out. */
  ghost predicate IsPreflow(net: Network, cap: map<Edge, int>, excess: seq<int>) {
    && IsResidual(net, cap)
    && |excess| == net.n && net.source < net.n && excess[net.source] == 0
    && (forall v: nat | v < net.n :: 0 <= excess[v])
    && (forall v: nat | v < net.n && v != net.source :: excess[v] == NetInto(net, cap, v))
  }

  /** Nothing more can leave the source. */
  ghost predicate SourceSaturated(net: Network, cap: map<Edge, int>) {
    forall v: nat :: At(cap, net.source, v) == 0
  }

  /** No flow leaves the sink. */
  ghost predicate SinkKeeps(net: Network, cap: map<Edge, int>) {
    forall v: nat :: At(cap, net.sink, v) >= At(net.capacity, net.sink, v)
  }

  function Pushed(cap: map<Edge, int>, u: nat, v: nat, amount: int): map<Edge, int> {
    cap[(u, v) := At(cap, u, v) - amount][(v, u) := At(cap, v, u) + amount]
  }

  /** The two directions of an edge change by opposite amounts, and nothing else does. */
  ghost predicate MovesCapacity(cap: map<Edge, int>, cap': map<Edge, int>, u: nat, v: nat, amount: int) {
    && cap'.Keys == cap.Keys + {(u, v), (v, u)}
    && At(cap', u, v) == At(cap, u, v) - amount && At(cap', v, u) == At(cap, v, u) + amount
    && forall x: nat, y: nat | (x, y) != (u, v) && (x, y) != (v, u) :: At(cap', x, y) == At(cap, x, y)
  }

  /** That determines the new capacities. */
  lemma MovesCapacityIsPushed(cap: map<Edge, int>, cap': map<Edge, int>, u: nat, v: nat, amount: int)
    requires u != v && MovesCapacity(cap, cap', u, v, amount)
    ensures cap' == Pushed(cap, u, v, amount)
  {
    forall e: Edge | e in cap' ensures cap'[e] == Pushed(cap, u, v, amount)[e] {
      assert At(cap', e.0, e.1) == cap'[e];
      assert e in cap ==> At(cap, e.0, e.1) == cap[e];
    }
  }

  lemma AtPushed(cap: map<Edge, int>, u: nat, v: nat, amount: int, x: nat, y: nat)
    requires u != v
    ensures At(Pushed(cap, u, v, amount), x, y)
         == if x == u && y == v then At(cap, u, v) - amount
            else if x == v && y == u then At(cap, v, u) + amount
            else At(cap, x, y)
  {
  }

  lemma PushChangesNet(net: Network, cap: map<Edge, int>, u: nat, v: nat, amount: int, w: nat)
    requires u < net.n && v < net.n && w < net.n && u != v
    ensures NetInto(net, Pushed(cap, u, v, amount), w)
         == NetInto(net, cap, w) + (if w == v then amount else if w == u then -amount else 0)
  {
    var cap' := Pushed(cap, u, v, amount);
    var before, after := Column(FlowOf(net, cap), w), Column(FlowOf(net, cap'), w);
    if w == v {
      SumPoint(net.n, before, after, u, amount);
    } else if w == u {
      SumPoint(net.n, before, after, v, -amount);
    } else {
      SumEq(net.n, before, after);
    }
  }

  lemma PushKeepsResidual(net: Network, cap: map<Edge, int>, u: nat, v: nat, amount: int)
    requires Valid(net) && IsResidual(net, cap) && (u, v) in net.capacity
    requires 0 <= amount <= At(cap, u, v)
    ensures u < net.n && v < net.n && u != v && IsResidual(net, Pushed(cap, u, v, amount))
  {
    assert (v, u) in net.capacity && u != v;
    var cap' := Pushed(cap, u, v, amount);
    assert cap'.Keys == net.capacity.Keys;
    forall x: nat, y: nat
      ensures 0 <= At(cap', x, y)
      ensures At(cap', x, y) + At(cap', y, x) == At(net.capacity, x, y) + At(net.capacity, y, x)
    {
      assert 0 <= At(cap, x, y);
      assert At(cap, x, y) + At(cap, y, x) == At(net.capacity, x, y) + At(net.capacity, y, x);
    }
  }

  /** Pushing along a residual edge between two nodes other than the source keeps the preflow laws,
      and if it does not start at the sink nothing flows out of the sink. */
  lemma PushKeepsPreflow(net: Network, cap: map<Edge, int>, excess: seq<int>, u: nat, v: nat, amount: int)
    requires Valid(net) && IsPreflow(net, cap, excess) && SourceSaturated(net, cap)
    requires (u, v) in net.capacity && u != net.source && v != net.source
    requires 0 <= amount <= At(cap, u, v) && amount <= excess[u]
    ensures u < net.n && v < net.n && u != v
    ensures IsPreflow(net, Pushed(cap, u, v, amount), excess[u := excess[u] - amount][v := excess[v] + amount])
    ensures SourceSaturated(net, Pushed(cap, u, v, amount))
    ensures u != net.sink && SinkKeeps(net, cap) ==> SinkKeeps(net, Pushed(cap, u, v, amount))
  {
    PushKeepsResidual(net, cap, u, v, amount);
    var cap' := Pushed(cap, u, v, amount);
    forall w: nat | w < net.n
      ensures NetInto(net, cap', w)
           == NetInto(net, cap, w) + (if w == v then amount else if w == u then -amount else 0)
    {
      PushChangesNet(net, cap, u, v, amount, w);
    }
  }

  /** A non-source node that holds excess has a residual edge out: some of what came in can go back. */
  lemma ExcessHasResidualEdge(net: Network, cap: map<Edge, int>, excess: seq<int>, v: nat) returns (u: nat)
    requires Valid(net) && IsPreflow(net, cap, excess)
    requires v < net.n && v != net.source && excess[v] > 0
    ensures u < net.n && FlowOf(net, cap)(u, v) > 0 && At(cap, v, u) > 0 && (v, u) in net.capacity
  {
    u := PositiveSummand(net.n, Column(FlowOf(net, cap), v));
    assert At(cap, u, v) + At(cap, v, u) == At(net.capacity, u, v) + At(net.capacity, v, u);
    assert 0 <= At(net.capacity, v, u) && 0 <= At(cap, u, v);
  }

  // ----- flows and cuts

  /** A feasible flow: antisymmetric, within capacity, conserved everywhere but at the two ends. */
  ghost predicate IsFlow(net: Network, f: (nat, nat) -> int) {
    && (forall u: nat, v: nat | u < net.n && v < net.n ::
          f(u, v) == -f(v, u) && f(u, v) <= At(net.capacity, u, v))
    && (forall v: nat | v < net.n && v != net.source && v != net.sink :: Sum(net.n, Column(f, v)) == 0)
  }

  ghost function Value(net: Network, f: (nat, nat) -> int): int {
    Sum(net.n, Column(f, net.sink))
  }

  /** f restricted to the pairs that enter t from outside, and to the pairs inside t. */
  ghost function Entering(f: (nat, nat) -> int, t: set<nat>): (nat, nat) -> int {
    (u: nat, v: nat) => if v in t && u !in t then f(u, v) else 0
  }
  ghost function Inside(f: (nat, nat) -> int, t: set<nat>): (nat, nat) -> int {
    (u: nat, v: nat) => if v in t && u in t then f(u, v) else 0
  }
  ghost function NetWithin(n: nat, f: (nat, nat) -> int, t: set<nat>): nat -> int {
    (v: nat) => if v in t then Sum(n, Column(f, v)) else 0
  }
  ghost function CapacityOf(net: Network): (nat, nat) -> int {
    (u: nat, v: nat) => At(net.capacity, u, v)
  }

  /** t is the sink's side of a cut. */
  ghost predicate IsSinkSide(net: Network, t: set<nat>) {
    net.sink in t && net.source !in t
  }

  ghost function CutCapacity(net: Network, t: set<nat>): int {
    Sum(net.n, ColumnSums(Entering(CapacityOf(net), t), net.n))
  }

  /** What a set of nodes takes in altogether is what crosses its border. */
  lemma NetCrossesBorder(n: nat, f: (nat, nat) -> int, t: set<nat>)
    requires forall u: nat, v: nat | u < n && v < n :: f(u, v) == -f(v, u)
    ensures Sum(n, NetWithin(n, f, t)) == Sum(n, ColumnSums(Entering(f, t), n))
  {
    AntisymmetricSum(n, Inside(f, t));
    forall v: nat | v < n
      ensures NetWithin(n, f, t)(v) == ColumnSums(Entering(f, t), n)(v) + ColumnSums(Inside(f, t), n)(v)
    {
      var entering, inside := Column(Entering(f, t), v), Column(Inside(f, t), v);
      if v in t {
        SumPlus(n, entering, inside, Column(f, v));
      } else {
        SumZero(n, entering);
        SumZero(n, inside);
      }
    }
    SumPlus(n, ColumnSums(Entering(f, t), n), ColumnSums(Inside(f, t), n), NetWithin(n, f, t));
  }

  /** If only the sink of a sink side t has a non-zero net inflow, the sink's is what enters t. */
  lemma SinkTakesWhatEnters(net: Network, f: (nat, nat) -> int, t: set<nat>)
    requires net.sink < net.n && net.sink in t
    requires forall u: nat, v: nat | u < net.n && v < net.n :: f(u, v) == -f(v, u)
    requires forall v: nat | v < net.n && v in t && v != net.sink :: Sum(net.n, Column(f, v)) == 0
    ensures Value(net, f) == Sum(net.n, ColumnSums(Entering(f, t), net.n))
  {
    NetCrossesBorder(net.n, f, t);
    var zero := (i: nat) => 0;
    SumZero(net.n, zero);
    SumPoint(net.n, zero, NetWithin(net.n, f, t), net.sink, Value(net, f));
  }

  /** Weak duality: no feasible flow exceeds the capacity of any cut. */
  lemma FlowAtMostCut(net: Network, f: (nat, nat) -> int, t: set<nat>)
    requires Valid(net) && IsFlow(net, f) && IsSinkSide(net, t)
    ensures Value(net, f) <= CutCapacity(net, t)
  {
    SinkTakesWhatEnters(net, f, t);
    forall v: nat | v < net.n
      ensures ColumnSums(Entering(f, t), net.n)(v) <= ColumnSums(Entering(CapacityOf(net), t), net.n)(v)
    {
      SumLe(net.n, Column(Entering(f, t), v), Column(Entering(CapacityOf(net), t), v));
    }
    SumLe(net.n, ColumnSums(Entering(f, t), net.n), ColumnSums(Entering(CapacityOf(net), t), net.n));
  }

  /** The value of a maximum flow: attained by some feasible flow and exceeded by none. */
  ghost predicate IsMaxFlowValue(net: Network, value: int) {
    && (exists f: (nat, nat) -> int :: IsFlow(net, f) && Value(net, f) == value)
    && (forall f: (nat, nat) -> int :: IsFlow(net, f) ==> Value(net, f) <= value)
  }

  // ----- from a preflow to a flow

  ghost function Positive(f: (nat, nat) -> int): (nat, nat) -> int {
    (u: nat, v: nat) => if f(u, v) > 0 then f(u, v) else 0
  }
  ghost function TotalFlow(net: Network, cap: map<Edge, int>): int {
    Sum(net.n, ColumnSums(Positive(FlowOf(net, cap)), net.n))
  }

  lemma TotalFlowNonNegative(net: Network, cap: map<Edge, int>)
    ensures TotalFlow(net, cap) >= 0
  {
    var p := Positive(FlowOf(net, cap));
    forall v: nat | v < net.n ensures ColumnSums(p, net.n)(v) >= 0 {
      SumNonNegative(net.n, Column(p, v));
    }
    SumNonNegative(net.n, ColumnSums(p, net.n));
  }

  /** Sending one unit back over an edge that carries flow lowers the total flow by one. */
  lemma SendBackLowersTotal(net: Network, cap: map<Edge, int>, u: nat, v: nat)
    requires Valid(net) && IsResidual(net, cap) && u < net.n && v < net.n && u != v
    requires FlowOf(net, cap)(u, v) > 0
    ensures TotalFlow(net, Pushed(cap, v, u, 1)) == TotalFlow(net, cap) - 1
  {
    var f, f' := FlowOf(net, cap), FlowOf(net, Pushed(cap, v, u, 1));
    var p, p' := Positive(f), Positive(f');
    assert At(cap, u, v) + At(cap, v, u) == At(net.capacity, u, v) + At(net.capacity, v, u);
    assert f(v, u) == -f(u, v) && f'(v, u) == f(v, u) + 1 && f'(u, v) == f(u, v) - 1;
    forall w: nat | w < net.n
      ensures ColumnSums(p', net.n)(w) == ColumnSums(p, net.n)(w) + (if w == v then -1 else 0)
    {
      if w == v {
        SumPoint(net.n, Column(p, v), Column(p', v), u, -1);
      } else {
        SumEq(net.n, Column(p, w), Column(p', w));
      }
    }
    SumPoint(net.n, ColumnSums(p, net.n), ColumnSums(p', net.n), v, -1);
  }

  /** The excess a preflow leaves outside the sink can be returned to the source, so the sink's
      excess is the value of a feasible flow. */
  lemma {:induction false} PreflowYieldsFlow(net: Network, cap: map<Edge, int>, excess: seq<int>)
    returns (f: (nat, nat) -> int)
    requires Valid(net) && IsPreflow(net, cap, excess) && SinkKeeps(net, cap)
    ensures IsFlow(net, f) && Value(net, f) == excess[net.sink]
    decreases TotalFlow(net, cap)
  {
    if v: nat :| v < net.n && v != net.source && v != net.sink && excess[v] > 0 {
      var u := ExcessHasResidualEdge(net, cap, excess, v);
      assert u != net.sink by { assert At(cap, net.sink, v) >= At(net.capacity, net.sink, v); }
      PushKeepsResidual(net, cap, v, u, 1);
      var cap' := Pushed(cap, v, u, 1);
      SendBackLowersTotal(net, cap, u, v);
      TotalFlowNonNegative(net, cap');
      forall w: nat | w < net.n
        ensures NetInto(net, cap', w) == NetInto(net, cap, w) + (if w == u then 1 else if w == v then -1 else 0)
      {
        PushChangesNet(net, cap, v, u, 1, w);
      }
      var excess' := excess[v := excess[v] - 1];
      if u != net.source { excess' := excess'[u := excess'[u] + 1]; }
      f := PreflowYieldsFlow(net, cap', excess');
    } else {
      f := FlowOf(net, cap);
      forall u: nat, v: nat | u < net.n && v < net.n
        ensures f(u, v) == -f(v, u) && f(u, v) <= At(net.capacity, u, v)
      {
        assert At(cap, u, v) + At(cap, v, u) == At(net.capacity, u, v) + At(net.capacity, v, u);
        assert 0 <= At(cap, u, v);
      }
      forall v: nat | v < net.n && v != net.source && v != net.sink ensures Sum(net.n, Column(f, v)) == 0 {
        assert excess[v] == NetInto(net, cap, v);
      }
    }
  }

  /** Max-flow min-cut for a preflow: if no residual edge enters t from outside and only the sink
      holds excess inside t, the sink's excess is t's capacity and the maximum flow value. */
  lemma SaturatedCutIsMinimum(net: Network, cap: map<Edge, int>, excess: seq<int>, t: set<nat>)
    requires Valid(net) && IsPreflow(net, cap, excess) && SinkKeeps(net, cap) && IsSinkSide(net, t)
    requires forall u: nat, v: nat | u < net.n && v < net.n && u !in t && v in t :: At(cap, u, v) == 0
    requires forall v: nat | v < net.n && v in t && v != net.sink :: excess[v] == 0
    ensures excess[net.sink] == CutCapacity(net, t)
    ensures IsMaxFlowValue(net, excess[net.sink])
  {
    var f := FlowOf(net, cap);
    forall u: nat, v: nat | u < net.n && v < net.n ensures f(u, v) == -f(v, u) {
      assert At(cap, u, v) + At(cap, v, u) == At(net.capacity, u, v) + At(net.capacity, v, u);
    }
    SinkTakesWhatEnters(net, f, t);
    forall v: nat | v < net.n
      ensures ColumnSums(Entering(f, t), net.n)(v) == ColumnSums(Entering(CapacityOf(net), t), net.n)(v)
    {
      SumEq(net.n, Column(Entering(f, t), v), Column(Entering(CapacityOf(net), t), v));
    }
    SumEq(net.n, ColumnSums(Entering(f, t), net.n), ColumnSums(Entering(CapacityOf(net), t), net.n));
    var g := PreflowYieldsFlow(net, cap, excess);
    forall h: (nat, nat) -> int | IsFlow(net, h) ensures Value(net, h) <= excess[net.sink] {
      FlowAtMostCut(net, h, t);
    }
  }
}
