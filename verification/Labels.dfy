/** Height labels of the preflow-push code: what a valid labelling means for the residual graph, why
    a drained worklist means a maximum flow, and how pushes and relabels keep the invariants. */
module Labels {
  import opened Sums
  import opened FlowNetwork

  /** No residual edge goes down by more than one. Labels are capped at n, where the source sits. */
  ghost predicate ValidLabels(net: Network, cap: map<Edge, int>, height: seq<int>) {
    && |height| == net.n && net.source < net.n && net.sink < net.n
    && (forall v: nat | v < net.n :: 0 <= height[v] <= net.n)
    && height[net.source] == net.n
    && (forall u: nat, v: nat | u < net.n && v < net.n && At(cap, u, v) > 0 :: height[u] <= height[v] + 1)
  }

  /** The current-arc rule: the arcs of u before current[u] cannot be pushed along. */
  ghost predicate ArcsBehindCursor(net: Network, cap: map<Edge, int>, height: seq<int>, current: seq<int>) {
    && |height| == net.n && |current| == net.n && |net.adj| == net.n
    && (forall u: nat | u < net.n :: 0 <= current[u] <= |net.adj[u]|)
    && (forall u: nat, k: nat | u < net.n && height[u] < net.n && k < current[u] :: ArcClosed(net, cap, height, u, k))
  }

  ghost predicate ArcClosed(net: Network, cap: map<Edge, int>, height: seq<int>, u: nat, k: nat)
    requires u < |net.adj| && k < |net.adj[u]| && u < |height|
  {
    var v := net.adj[u][k];
    v < |height| && (At(cap, u, v) == 0 || height[v] >= height[u])
  }

  /** The sink is reachable from v over at most k residual edges. */
  ghost predicate Within(net: Network, cap: map<Edge, int>, v: nat, k: nat)
    decreases k
  {
    v == net.sink || (k > 0 && exists w: nat :: w < net.n && At(cap, v, w) > 0 && Within(net, cap, w, k - 1))
  }

  ghost predicate Reaches(net: Network, cap: map<Edge, int>, v: nat) {
    exists k: nat :: Within(net, cap, v, k)
  }

  /** A label exceeds the sink's by at most the distance to the sink. */
  lemma {:induction false} LabelAtMostDistance(net: Network, cap: map<Edge, int>, height: seq<int>, v: nat, k: nat)
    requires v < net.n && net.sink < net.n && |height| == net.n && Within(net, cap, v, k)
    requires forall u: nat, w: nat | u < net.n && w < net.n && At(cap, u, w) > 0 :: height[u] <= height[w] + 1
    ensures height[v] <= height[net.sink] + k
    decreases k
  {
    if v != net.sink {
      var w: nat :| w < net.n && At(cap, v, w) > 0 && Within(net, cap, w, k - 1);
      LabelAtMostDistance(net, cap, height, w, k - 1);
    }
  }

  ghost predicate Exactly(net: Network, cap: map<Edge, int>, v: nat, k: nat) {
    Within(net, cap, v, k) && (k > 0 ==> !Within(net, cap, v, k - 1))
  }

  lemma {:induction false} SomeExactDistance(net: Network, cap: map<Edge, int>, v: nat, k: nat) returns (d: nat)
    requires Within(net, cap, v, k)
    ensures d <= k && Exactly(net, cap, v, d)
  {
    if k > 0 && Within(net, cap, v, k - 1) {
      d := SomeExactDistance(net, cap, v, k - 1);
    } else {
      d := k;
    }
  }

  lemma {:induction false} WithinGrows(net: Network, cap: map<Edge, int>, v: nat, j: nat, k: nat)
    requires Within(net, cap, v, j) && j <= k
    ensures Within(net, cap, v, k)
    decreases k
  {
    if v != net.sink {
      var w: nat :| w < net.n && At(cap, v, w) > 0 && Within(net, cap, w, j - 1);
      WithinGrows(net, cap, w, j - 1, k - 1);
    }
  }

  /** A node at distance d shares its shortest path with d others, none of them the source, because
      no residual edge leaves the source. */
  lemma {:induction false} ShortestPathNodes(net: Network, cap: map<Edge, int>, v: nat, d: nat) returns (path: set<nat>)
    requires v < net.n && net.source != net.sink && SourceSaturated(net, cap) && Exactly(net, cap, v, d)
    ensures |path| == d + 1
    ensures forall x | x in path :: x < net.n && x != net.source && Within(net, cap, x, d)
    decreases d
  {
    assert v != net.source by { assert forall w: nat :: At(cap, net.source, w) == 0; }
    if v == net.sink {
      path := {v};
    } else {
      var w: nat :| w < net.n && At(cap, v, w) > 0 && Within(net, cap, w, d - 1);
      var rest := ShortestPathNodes(net, cap, w, d - 1);
      assert v !in rest;
      path := rest + {v};
      forall x | x in path ensures Within(net, cap, x, d) {
        if x in rest { WithinGrows(net, cap, x, d - 1, d); }
      }
    }
  }

  lemma {:induction false} SetBelow(s: set<nat>, n: nat)
    requires forall x | x in s :: x < n
    ensures |s| <= n
  {
    if n == 0 {
      assert s == {};
    } else {
      SetBelow(s - {n - 1}, n - 1);
      assert |s| <= |s - {n - 1}| + 1;
    }
  }

  /** Every node that can still reach the sink is labelled below n, even while the sink's own label
      is 1: such paths avoid the source, so they have at most n-2 edges. */
  lemma ReachingNodesAreBelowCap(net: Network, cap: map<Edge, int>, height: seq<int>, v: nat)
    requires v < net.n && net.source != net.sink
    requires ValidLabels(net, cap, height) && height[net.sink] <= 1 && SourceSaturated(net, cap) && Reaches(net, cap, v)
    ensures height[v] < net.n
  {
    var k: nat :| Within(net, cap, v, k);
    var d := SomeExactDistance(net, cap, v, k);
    var path := ShortestPathNodes(net, cap, v, d);
    SetBelow(path + {net.source}, net.n);
    assert |path + {net.source}| == d + 2;
    LabelAtMostDistance(net, cap, height, v, d);
  }

  /** The nodes on the sink's side of the cut the algorithm ends with. */
  ghost function SinkSide(net: Network, cap: map<Edge, int>): set<nat> {
    set v: nat | v < net.n && Reaches(net, cap, v)
  }

  /** The first phase is complete: when no node below the label cap but the sink holds excess, the
      sink's excess is the maximum flow value, and the capacity of the cut between the nodes that
      can and that cannot reach the sink. */
  lemma DrainedMeansMaximum(net: Network, cap: map<Edge, int>, excess: seq<int>, height: seq<int>)
    requires Valid(net) && IsPreflow(net, cap, excess) && SourceSaturated(net, cap) && SinkKeeps(net, cap)
    requires ValidLabels(net, cap, height) && height[net.sink] <= 1
    requires forall v: nat | v < net.n && v != net.sink && excess[v] > 0 :: height[v] >= net.n
    ensures IsMaxFlowValue(net, excess[net.sink])
    ensures excess[net.sink] == CutCapacity(net, SinkSide(net, cap))
  {
    var t := SinkSide(net, cap);
    assert Within(net, cap, net.sink, 0);
    assert net.source !in t by {
      assert forall k: nat :: !Within(net, cap, net.source, k);
    }
    forall u: nat, v: nat | u < net.n && v < net.n && u !in t && v in t ensures At(cap, u, v) == 0 {
      var k: nat :| Within(net, cap, v, k);
      assert 0 <= At(cap, u, v);
      if At(cap, u, v) > 0 { assert Within(net, cap, u, k + 1); }
    }
    forall v: nat | v < net.n && v in t && v != net.sink ensures excess[v] == 0 {
      ReachingNodesAreBelowCap(net, cap, height, v);
    }
    SaturatedCutIsMinimum(net, cap, excess, t);
  }

  // ----- one push, one relabel

  ghost predicate Admissible(cap: map<Edge, int>, height: seq<int>, u: nat, v: nat)
    requires u < |height| && v < |height|
  {
    At(cap, u, v) > 0 && height[u] - 1 == height[v]
  }

  lemma PushKeepsLabels(net: Network, cap: map<Edge, int>, height: seq<int>, current: seq<int>, u: nat, v: nat, amount: int)
    requires ValidLabels(net, cap, height) && ArcsBehindCursor(net, cap, height, current)
    requires u < net.n && v < net.n && u != v && Admissible(cap, height, u, v) && 0 <= amount <= At(cap, u, v)
    ensures ValidLabels(net, Pushed(cap, u, v, amount), height)
    ensures ArcsBehindCursor(net, Pushed(cap, u, v, amount), height, current)
  {
    var cap' := Pushed(cap, u, v, amount);
    forall x: nat, k: nat | x < net.n && height[x] < net.n && k < current[x]
      ensures ArcClosed(net, cap', height, x, k)
    {
      assert ArcClosed(net, cap, height, x, k);
    }
  }

  /** Arc m is the first of least height among the residual arcs of u numbered below count. */
  ghost predicate IsLowestArc(net: Network, cap: map<Edge, int>, height: seq<int>, u: nat, count: nat, m: nat)
    requires u < |net.adj| && count <= |net.adj[u]|
    requires forall j: nat | j < |net.adj[u]| :: net.adj[u][j] < |height|
  {
    && m < count && At(cap, u, net.adj[u][m]) > 0
    && forall j: nat | j < count && At(cap, u, net.adj[u][j]) > 0 ::
         height[net.adj[u][m]] <= height[net.adj[u][j]] && (j < m ==> height[net.adj[u][m]] < height[net.adj[u][j]])
  }

  ghost function Capped(h: int, n: nat): int { if h < n then h else n }

  /** Relabelling a node without admissible arcs strictly raises it and keeps both invariants. */
  lemma RelabelKeepsLabels(net: Network, cap: map<Edge, int>, height: seq<int>, current: seq<int>, u: nat, k: nat)
    requires Valid(net) && IsResidual(net, cap)
    requires ValidLabels(net, cap, height) && ArcsBehindCursor(net, cap, height, current)
    requires u < net.n && u != net.source && height[u] < net.n
    requires IsLowestArc(net, cap, height, u, |net.adj[u]|, k)
    requires forall j: nat | j < |net.adj[u]| :: ArcClosed(net, cap, height, u, j)
    ensures var h := Capped(height[net.adj[u][k]] + 1, net.n);
            && height[u] < h <= net.n
            && ValidLabels(net, cap, height[u := h])
            && ArcsBehindCursor(net, cap, height[u := h], if h < net.n then current[u := k] else current)
  {
    var h := Capped(height[net.adj[u][k]] + 1, net.n);
    var height', current' := height[u := h], if h < net.n then current[u := k] else current;
    assert ArcClosed(net, cap, height, u, k);
    forall x: nat, y: nat | x < net.n && y < net.n && At(cap, x, y) > 0 ensures height'[x] <= height'[y] + 1 {
      if x == u {
        assert (u, y) in net.capacity;
        var j :| 0 <= j < |net.adj[u]| && net.adj[u][j] == y;
        assert y != u;
      }
    }
    forall x: nat, j: nat | x < net.n && height'[x] < net.n && j < current'[x]
      ensures ArcClosed(net, cap, height', x, j)
    {
      if x != u {
        assert ArcClosed(net, cap, height, x, j);
      }
    }
  }

  // ----- termination measure

  ghost function Room(net: Network, height: seq<int>): int
    requires |height| == net.n
  {
    Sum(net.n, RoomAt(net, height))
  }
  ghost function RoomAt(net: Network, height: seq<int>): nat -> int {
    (u: nat) => if u < |height| then net.n - height[u] else 0
  }
  ghost function Potential(net: Network, excess: seq<int>, height: seq<int>): int {
    Sum(net.n, PotentialAt(excess, height))
  }
  ghost function PotentialAt(excess: seq<int>, height: seq<int>): nat -> int {
    (u: nat) => if u < |height| && u < |excess| then excess[u] * height[u] else 0
  }

  lemma MeasuresNonNegative(net: Network, excess: seq<int>, height: seq<int>)
    requires |height| == net.n && |excess| == net.n
    requires forall v: nat | v < net.n :: 0 <= height[v] <= net.n && 0 <= excess[v]
    ensures Room(net, height) >= 0 && Potential(net, excess, height) >= 0
  {
    SumNonNegative(net.n, RoomAt(net, height));
    SumNonNegative(net.n, PotentialAt(excess, height));
  }

  lemma RaiseUsesRoom(net: Network, height: seq<int>, u: nat, h: int)
    requires |height| == net.n && u < net.n
    ensures Room(net, height[u := h]) == Room(net, height) - (h - height[u])
  {
    SumPoint(net.n, RoomAt(net, height), RoomAt(net, height[u := h]), u, height[u] - h);
  }

  /** Pushing downhill by one lowers the potential by the amount pushed. */
  lemma PushLowersPotential(net: Network, excess: seq<int>, height: seq<int>, u: nat, v: nat, amount: int)
    requires |height| == net.n && |excess| == net.n && u < net.n && v < net.n && height[u] - 1 == height[v]
    ensures Potential(net, excess[u := excess[u] - amount][v := excess[v] + amount], height)
         == Potential(net, excess, height) - amount
  {
    var mid := excess[u := excess[u] - amount];
    var after := mid[v := excess[v] + amount];
    assert (excess[u] - amount) * height[u] == excess[u] * height[u] - amount * height[u];
    assert (excess[v] + amount) * height[v] == excess[v] * height[v] + amount * height[v];
    assert amount * height[v] == amount * height[u] - amount;
    SumPoint(net.n, PotentialAt(excess, height), PotentialAt(mid, height), u, -(amount * height[u]));
    SumPoint(net.n, PotentialAt(mid, height), PotentialAt(after, height), v, amount * height[v]);
  }
}
