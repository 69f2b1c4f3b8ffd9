/** The reverse breadth-first search of a global relabel, as any number of threads run it: each takes
    a node, looks at its edges one by one, and lowers a neighbour's height with compare-and-swap.
    Reading a height and lowering with it are separate steps, so a thread may act on a stale value. */
module ReverseBfs {
  import opened Sums
  import opened FlowNetwork
  import opened Labels

  datatype Task = Idle | Look(src: nat, k: nat) | Lower(src: nat, k: nat, newHeight: int)

  /** Heights, the nodes waiting to be scanned, and what each thread is doing. Nodes a thread has
      pushed count as waiting at once; a later hand-over only removes schedules. */
  datatype Search = Search(height: seq<int>, queue: multiset<nat>, tasks: seq<Task>)

  ghost predicate LowNode(net: Network, height: seq<int>, u: nat) {
    u < net.n && u < |height| && height[u] < net.n
  }

  ghost predicate TaskLaws(net: Network, cap: map<Edge, int>, height: seq<int>, t: Task) {
    match t
    case Idle => true
    case Look(src, k) => LowNode(net, height, src) && src < |net.adj| && k <= |net.adj[src]|
    case Lower(src, k, h) =>
      && LowNode(net, height, src) && src < |net.adj| && k < |net.adj[src]| && h >= height[src] + 1 && h >= 0
      && Within(net, cap, net.adj[src][k], h)
  }

  /** Arc j of u leads to a node that could still be lowered by going over it to u. */
  ghost predicate Behind(net: Network, cap: map<Edge, int>, height: seq<int>, u: nat, j: nat)
    requires u < |net.adj| && j < |net.adj[u]| && u < |height| && net.adj[u][j] < |height|
  {
    At(cap, net.adj[u][j], u) > 0 && height[net.adj[u][j]] > height[u] + 1
  }

  /** Thread work that will still look at arc j of u with u's present height. */
  ghost predicate WillHandle(t: Task, height: seq<int>, u: nat, j: nat)
    requires u < |height|
  {
    match t
    case Idle => false
    case Look(src, k) => src == u && k <= j
    case Lower(src, k, h) => src == u && (k < j || (k == j && h == height[u] + 1))
  }

  ghost predicate Handled(s: Search, u: nat, j: nat)
    requires u < |s.height|
  {
    u in s.queue || exists i: nat :: i < |s.tasks| && WillHandle(s.tasks[i], s.height, u, j)
  }

  ghost predicate Sound(net: Network, cap: map<Edge, int>, height: seq<int>) {
    && |height| == net.n && net.sink < net.n && height[net.sink] == 0
    && (forall v: nat | v < net.n :: 0 <= height[v] <= net.n)
    && (forall v: nat | v < net.n && height[v] < net.n :: Within(net, cap, v, height[v]))
  }

  ghost predicate SearchLaws(net: Network, cap: map<Edge, int>, s: Search) {
    && Valid(net) && Sound(net, cap, s.height)
    && (forall u | u in s.queue :: LowNode(net, s.height, u))
    && (forall i: nat | i < |s.tasks| :: TaskLaws(net, cap, s.height, s.tasks[i]))
    && (forall u: nat, j: nat | u < net.n && j < |net.adj[u]| && Behind(net, cap, s.height, u, j) :: Handled(s, u, j))
  }

  lemma SearchStarts(net: Network, cap: map<Edge, int>, s: Search)
    requires Valid(net) && |s.height| == net.n && s.queue == multiset{net.sink}
    requires forall v: nat | v < net.n :: s.height[v] == if v == net.sink then 0 else net.n
    requires forall i: nat | i < |s.tasks| :: s.tasks[i] == Idle
    ensures SearchLaws(net, cap, s)
  {
    assert Within(net, cap, net.sink, 0);
  }

  // ----- termination

  ghost function HeightSum(height: seq<int>): int {
    Sum(|height|, (v: nat) => if v < |height| then height[v] else 0)
  }
  ghost function Work(net: Network, t: Task): int {
    match t
    case Idle => 0
    case Look(src, k) => if src < |net.adj| then 2 * (|net.adj[src]| - k) + 1 else 0
    case Lower(src, k, _) => if src < |net.adj| then 2 * (|net.adj[src]| - k) else 0
  }
  ghost function WorkAt(net: Network, tasks: seq<Task>): nat -> int {
    (i: nat) => if i < |tasks| then Work(net, tasks[i]) else 0
  }
  ghost function TotalWork(net: Network, tasks: seq<Task>): int {
    Sum(|tasks|, WorkAt(net, tasks))
  }

  lemma WorkChanges(net: Network, tasks: seq<Task>, i: nat, t: Task)
    requires i < |tasks|
    ensures TotalWork(net, tasks[i := t]) == TotalWork(net, tasks) + Work(net, t) - Work(net, tasks[i])
  {
    SumPoint(|tasks|, WorkAt(net, tasks), WorkAt(net, tasks[i := t]), i, Work(net, t) - Work(net, tasks[i]));
  }

  lemma LoweringShrinksSum(height: seq<int>, v: nat, h: int)
    requires v < |height| && h < height[v]
    ensures HeightSum(height[v := h]) < HeightSum(height)
  {
    SumPoint(|height|, (x: nat) => if x < |height| then height[x] else 0,
             (x: nat) => if x < |height[v := h]| then height[v := h][x] else 0, v, h - height[v]);
  }

  ghost predicate Progress(net: Network, s: Search, s': Search) {
    || HeightSum(s'.height) < HeightSum(s.height)
    || (s'.height == s.height && |s'.queue| < |s.queue|)
    || (s'.height == s.height && s'.queue == s.queue && TotalWork(net, s'.tasks) < TotalWork(net, s.tasks))
  }

  lemma MeasureNonNegative(net: Network, cap: map<Edge, int>, s: Search)
    requires SearchLaws(net, cap, s)
    ensures HeightSum(s.height) >= 0 && TotalWork(net, s.tasks) >= 0
  {
    SumNonNegative(|s.height|, (v: nat) => if v < |s.height| then s.height[v] else 0);
    forall i: nat | i < |s.tasks| ensures WorkAt(net, s.tasks)(i) >= 0 {
      assert TaskLaws(net, cap, s.height, s.tasks[i]);
    }
    SumNonNegative(|s.tasks|, WorkAt(net, s.tasks));
  }

  // ----- the steps of one thread

  ghost function Took(s: Search, i: nat, src: nat): Search
    requires i < |s.tasks|
  {
    s.(queue := s.queue - multiset{src}, tasks := s.tasks[i := Look(src, 0)])
  }

  lemma TakeStep(net: Network, cap: map<Edge, int>, s: Search, i: nat, src: nat)
    requires SearchLaws(net, cap, s) && i < |s.tasks| && s.tasks[i] == Idle && src in s.queue
    ensures SearchLaws(net, cap, Took(s, i, src)) && Progress(net, s, Took(s, i, src))
  {
    var s' := Took(s, i, src);
    forall u: nat, j: nat | u < net.n && j < |net.adj[u]| && Behind(net, cap, s'.height, u, j) ensures Handled(s', u, j) {
      if u == src {
        assert WillHandle(s'.tasks[i], s'.height, u, j);
      } else {
        KeepsHandling(s, s', i, u, j);
      }
    }
  }

  /** Other threads' work still counts after thread i has moved on. */
  lemma KeepsHandling(s: Search, s': Search, i: nat, u: nat, j: nat)
    requires |s.tasks| == |s'.tasks| && i < |s.tasks| && u < |s.height| && u < |s'.height|
    requires Handled(s, u, j) && !WillHandle(s.tasks[i], s.height, u, j) && s'.height[u] == s.height[u]
    requires u in s.queue ==> u in s'.queue
    requires forall x: nat | x < |s.tasks| && x != i :: s'.tasks[x] == s.tasks[x]
    ensures Handled(s', u, j)
  {
    if u !in s.queue {
      var x: nat :| x < |s.tasks| && WillHandle(s.tasks[x], s.height, u, j);
      assert WillHandle(s'.tasks[x], s'.height, u, j);
    }
  }

  ghost function Looked(net: Network, cap: map<Edge, int>, s: Search, i: nat): Search
    requires i < |s.tasks| && s.tasks[i].Look? && TaskLaws(net, cap, s.height, s.tasks[i])
  {
    var src, k := s.tasks[i].src, s.tasks[i].k;
    s.(tasks := s.tasks[i :=
      if k == |net.adj[src]| then Idle
      else if At(cap, net.adj[src][k], src) > 0 then Lower(src, k, s.height[src] + 1)
      else Look(src, k + 1)])
  }

  lemma LookStep(net: Network, cap: map<Edge, int>, s: Search, i: nat)
    requires SearchLaws(net, cap, s) && i < |s.tasks| && s.tasks[i].Look?
    ensures SearchLaws(net, cap, Looked(net, cap, s, i)) && Progress(net, s, Looked(net, cap, s, i))
  {
    var s' := Looked(net, cap, s, i);
    WorkChanges(net, s.tasks, i, s'.tasks[i]);
    var src, k := s.tasks[i].src, s.tasks[i].k;
    if k < |net.adj[src]| && At(cap, net.adj[src][k], src) > 0 {
      assert Within(net, cap, src, s.height[src]);
      assert Within(net, cap, net.adj[src][k], s.height[src] + 1);
    }
    forall u: nat, j: nat | u < net.n && j < |net.adj[u]| && Behind(net, cap, s'.height, u, j) ensures Handled(s', u, j) {
      if WillHandle(s.tasks[i], s.height, u, j) {
        assert WillHandle(s'.tasks[i], s'.height, u, j);
      } else {
        KeepsHandling(s, s', i, u, j);
      }
    }
  }

  ghost function Lowered(net: Network, cap: map<Edge, int>, s: Search, i: nat): Search
    requires i < |s.tasks| && s.tasks[i].Lower? && TaskLaws(net, cap, s.height, s.tasks[i])
  {
    var src, k, h := s.tasks[i].src, s.tasks[i].k, s.tasks[i].newHeight;
    var dst := net.adj[src][k];
    var moved := s.(tasks := s.tasks[i := Look(src, k + 1)]);
    if dst < |s.height| && h < s.height[dst] then
      moved.(height := s.height[dst := h], queue := s.queue + multiset{dst})
    else
      moved
  }

  lemma LowerKeepsTasks(net: Network, cap: map<Edge, int>, s: Search, i: nat)
    requires SearchLaws(net, cap, s) && i < |s.tasks| && s.tasks[i].Lower?
    ensures var s' := Lowered(net, cap, s, i);
            && Sound(net, cap, s'.height)
            && (forall u | u in s'.queue :: LowNode(net, s'.height, u))
            && (forall x: nat | x < |s'.tasks| :: TaskLaws(net, cap, s'.height, s'.tasks[x]))
  {
    var s' := Lowered(net, cap, s, i);
    forall x: nat | x < |s'.tasks| ensures TaskLaws(net, cap, s'.height, s'.tasks[x]) {
      assert TaskLaws(net, cap, s.height, s.tasks[x]);
    }
  }

  lemma LowerStep(net: Network, cap: map<Edge, int>, s: Search, i: nat)
    requires SearchLaws(net, cap, s) && i < |s.tasks| && s.tasks[i].Lower?
    ensures SearchLaws(net, cap, Lowered(net, cap, s, i)) && Progress(net, s, Lowered(net, cap, s, i))
  {
    var s' := Lowered(net, cap, s, i);
    WorkChanges(net, s.tasks, i, s'.tasks[i]);
    var dst := net.adj[s.tasks[i].src][s.tasks[i].k];
    if s.tasks[i].newHeight < s.height[dst] {
      LoweringShrinksSum(s.height, dst, s.tasks[i].newHeight);
    }
    LowerKeepsTasks(net, cap, s, i);
    hide Sound, TaskLaws;
    forall u: nat, j: nat | u < net.n && j < |net.adj[u]| && Behind(net, cap, s'.height, u, j) ensures Handled(s', u, j) {
      if u == dst && s'.height != s.height {
        assert u in s'.queue;
      } else {
        assert Behind(net, cap, s.height, u, j);
        if WillHandle(s.tasks[i], s.height, u, j) {
          assert WillHandle(s'.tasks[i], s'.height, u, j);
        } else {
          KeepsHandling(s, s', i, u, j);
        }
      }
    }
  }

  lemma SearchIndices(net: Network, cap: map<Edge, int>, s: Search, i: nat)
    requires SearchLaws(net, cap, s) && i < |s.tasks|
    ensures |s.height| == net.n && TaskLaws(net, cap, s.height, s.tasks[i])
    ensures s.tasks[i].Look? ==> s.tasks[i].src < net.n && s.tasks[i].k <= |net.adj[s.tasks[i].src]|
    ensures s.tasks[i].Lower? ==>
              s.tasks[i].src < net.n && s.tasks[i].k < |net.adj[s.tasks[i].src]| && net.adj[s.tasks[i].src][s.tasks[i].k] < net.n
  {
  }

  // ----- the result

  /** Labels that are the residual distance to the sink, or n where that is at least n. */
  ghost predicate ExactLabels(net: Network, cap: map<Edge, int>, height: seq<int>) {
    && |height| == net.n
    && (forall v: nat | v < net.n :: 0 <= height[v] <= net.n)
    && (forall v: nat, k: nat | v < net.n && k < net.n :: height[v] <= k <==> Within(net, cap, v, k))
  }

  lemma StableIsExact(net: Network, cap: map<Edge, int>, height: seq<int>)
    requires Sound(net, cap, height)
    requires forall u: nat, v: nat | u < net.n && v < net.n && At(cap, u, v) > 0 :: height[u] <= height[v] + 1
    ensures ExactLabels(net, cap, height)
  {
    forall v: nat, k: nat | v < net.n && k < net.n ensures height[v] <= k <==> Within(net, cap, v, k) {
      if Within(net, cap, v, k) {
        LabelAtMostDistance(net, cap, height, v, k);
      }
      if height[v] <= k {
        WithinGrows(net, cap, v, height[v], k);
      }
    }
  }

  /** When nothing is left to do, no residual edge drops by more than one, so the labels are exact. */
  lemma SearchDone(net: Network, cap: map<Edge, int>, s: Search)
    requires SearchLaws(net, cap, s) && s.queue == multiset{} && forall i: nat | i < |s.tasks| :: s.tasks[i] == Idle
    requires cap.Keys == net.capacity.Keys
    ensures ExactLabels(net, cap, s.height)
  {
    forall u: nat, v: nat | u < net.n && v < net.n && At(cap, u, v) > 0 ensures s.height[u] <= s.height[v] + 1 {
      assert (v, u) in net.capacity;
      var j: nat :| j < |net.adj[v]| && net.adj[v][j] == u;
      assert !Handled(s, v, j);
      assert !Behind(net, cap, s.height, v, j);
    }
    StableIsExact(net, cap, s.height);
  }

  /** Exact labels are valid: the source has no residual edge out, so it gets n. */
  lemma ExactIsValid(net: Network, cap: map<Edge, int>, height: seq<int>)
    requires Valid(net) && SourceSaturated(net, cap) && ExactLabels(net, cap, height)
    ensures ValidLabels(net, cap, height) && height[net.sink] == 0
  {
    assert Within(net, cap, net.sink, 0);
    assert !Within(net, cap, net.source, net.n - 1);
    forall u: nat, v: nat | u < net.n && v < net.n && At(cap, u, v) > 0 ensures height[u] <= height[v] + 1 {
      if height[v] + 1 < net.n {
        assert Within(net, cap, v, height[v]);
        assert Within(net, cap, u, height[v] + 1);
      }
    }
  }

  /** A global relabel never lowers a label, once the sink's is 0. */
  lemma ExactLabelsAreHighest(net: Network, cap: map<Edge, int>, height: seq<int>, exact: seq<int>)
    requires ValidLabels(net, cap, height) && height[net.sink] == 0 && ExactLabels(net, cap, exact)
    ensures forall v: nat | v < net.n :: height[v] <= exact[v]
  {
    forall v: nat | v < net.n ensures height[v] <= exact[v] {
      if exact[v] < net.n {
        assert Within(net, cap, v, exact[v]);
        LabelAtMostDistance(net, cap, height, v, exact[v]);
      }
    }
  }
}
