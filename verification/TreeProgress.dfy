/** Progress of the tree detector. A hop is a step that moves a token: a thread takes one from above,
    signals one of its children, or sends one up (the master: closes the wave). Once no work is left
    the number of hops before detection is bounded, and some thread can always make the next one. */
module TreeProgress {
  import opened Sums
  import opened Trees
  import opened TreeTermination
  import opened Waves

  ghost predicate Hop(t: Tree, t': Tree, i: nat) {
    || (LookDown(t, t', i) && t.nodes[i].downToken)
    || SignalChild(t, t', i)
    || (Enter(t, t', i) && HaveAll(t, i))
  }

  ghost predicate SomeHop(t: Tree, t': Tree) {
    exists i: nat :: Hop(t, t', i)
  }

  /** The hops that thread i has made in the present wave. */
  ghost function Made(t: Tree, visited: set<nat>, i: nat): int {
    if i >= |t.nodes| || i >= |t.stage| then 0
    else if i in visited then 4
    else if !t.nodes[i].hasToken then 0
    else if t.stage[i].Signal? then if t.stage[i].c == 0 then 1 else 2
    else 3
  }
  ghost function MadeBy(t: Tree, visited: set<nat>): nat -> int {
    (i: nat) => Made(t, visited, i)
  }

  ghost function HopsLeft(t: Tree, w: Wave): int {
    Times(WavesLeft(w), 4 * |t.nodes|) - Sum(|t.nodes|, MadeBy(t, w.visited))
  }

  lemma MadeBounds(t: Tree, w: Wave)
    requires Represents(t, w)
    ensures 0 <= Sum(|t.nodes|, MadeBy(t, w.visited)) < 4 * |t.nodes|
  {
    SumNonNegative(|t.nodes|, MadeBy(t, w.visited));
    MadeBelow(t, w.visited, |t.nodes|);
  }

  lemma {:induction false} MadeBelow(t: Tree, visited: set<nat>, n: nat)
    requires TreeShape(t) && 0 < n <= |t.nodes| && 0 !in visited
    ensures Sum(n, MadeBy(t, visited)) < 4 * n
  {
    if n == 1 {
      assert Sum(0, MadeBy(t, visited)) == 0;
    } else {
      MadeBelow(t, visited, n - 1);
    }
  }

  lemma HopsLeftBounds(t: Tree, w: Wave)
    requires Represents(t, w)
    ensures 0 < HopsLeft(t, w) <= Times(4, 4 * |t.nodes|)
  {
    MadeBounds(t, w);
    var n := 4 * |t.nodes|;
    TimesMonotone(WavesLeft(w), 4, n);
    TimesMonotone(1, WavesLeft(w), n);
    assert Times(1, n) == n + Times(0, n);
  }

  lemma LookDownSpends(t: Tree, t': Tree, w: Wave, i: nat)
    requires Represents(t, w) && LookDown(t, t', i) && !w.done
    ensures HopsLeft(t', w) == HopsLeft(t, w) - if t.nodes[i].downToken then 1 else 0
  {
    if i > 0 { assert LinkLaws(t, w.visited, i); }
    if t.nodes[i].downToken {
      SumPoint(|t.nodes|, MadeBy(t, w.visited), MadeBy(t', w.visited), i, 1);
    } else {
      SumEq(|t.nodes|, MadeBy(t, w.visited), MadeBy(t', w.visited));
    }
  }

  lemma SignalMakesHop(t: Tree, t': Tree, visited: set<nat>, i: nat)
    requires SignalChild(t, t', i) && t.nodes[i].hasToken && i !in visited
    ensures |t'.nodes| == |t.nodes| && Made(t', visited, i) == Made(t, visited, i) + 1
    ensures forall x: nat | x < |t.nodes| && x != i :: Made(t', visited, x) == Made(t, visited, x)
  {
    BinaryTies(i, t.stage[i].c);
    assert forall x: nat | x < |t.nodes| :: t'.nodes[x].hasToken == t.nodes[x].hasToken;
  }

  lemma SignalSpends(t: Tree, t': Tree, w: Wave, i: nat)
    requires Represents(t, w) && SignalChild(t, t', i) && !w.done
    ensures HopsLeft(t', w) == HopsLeft(t, w) - 1
  {
    if i > 0 { assert LinkLaws(t, w.visited, i); }
    hide InWave, SignalChild, Made;
    SignalMakesHop(t, t', w.visited, i);
    SumPoint(|t.nodes|, MadeBy(t, w.visited), MadeBy(t', w.visited), i, 1);
  }

  lemma SendUpSpends(t: Tree, t': Tree, w: Wave, i: nat) returns (w': Wave)
    requires Represents(t, w) && WaveLaws(w) && NoWork(w.pool) && Enter(t, t', i) && HaveAll(t, i) && i != 0
    ensures Visit(w, w', i) && Represents(t', w') && NoWork(w'.pool) && HopsLeft(t', w') < HopsLeft(t, w)
  {
    w' := SendUpRefines(t, t', w, i);
    VisitKeepsWaves(w, w', i);
    TimesMonotone(WavesLeft(w'), WavesLeft(w), 4 * |t.nodes|);
    hide InWave, WaveLaws, NoWork, WavesLeft, TreeShape;
    BinaryTies(i, 0);
    SumPoint(|t.nodes|, MadeBy(t, w.visited), MadeBy(t', w'.visited), i, 1);
  }

  lemma CloseSpends(t: Tree, t': Tree, w: Wave) returns (w': Wave)
    requires Represents(t, w) && WaveLaws(w) && NoWork(w.pool) && Enter(t, t', 0) && HaveAll(t, 0)
    ensures Close(w, w') && Represents(t', w') && NoWork(w'.pool) && (w'.done || HopsLeft(t', w') < HopsLeft(t, w))
  {
    w' := CloseRefines(t, t', w);
    CloseSpendsWave(w, w');
    if !w'.done {
      TimesMonotone(WavesLeft(w'), WavesLeft(w), 4 * |t.nodes|);
      MadeBounds(t, w);
      MadeBounds(t', w');
    }
  }

  /** Work and plain reports move no token. */
  lemma IdleSpendsNothing(t: Tree, t': Tree, w: Wave, w': Wave)
    requires TreeShape(t) && |t'.nodes| == |t.nodes| && w' == w.(pool := w'.pool) && |t'.stage| == |t.stage|
    requires forall i: nat | i < |t.nodes| ::
               t'.nodes[i].hasToken == t.nodes[i].hasToken && (t'.stage[i].Signal? <==> t.stage[i].Signal?) &&
               (t.stage[i].Signal? ==> t'.stage[i] == t.stage[i])
    ensures HopsLeft(t', w') == HopsLeft(t, w)
  {
    MovesLeftFrame(w, w');
    SumEq(|t.nodes|, MadeBy(t, w.visited), MadeBy(t', w.visited));
  }

  lemma ReportSpendsNothing(t: Tree, t': Tree, w: Wave, i: nat) returns (w': Wave)
    requires Represents(t, w) && NoWork(w.pool) && Enter(t, t', i) && !HaveAll(t, i)
    ensures Report(w, w', i) && Represents(t', w') && NoWork(w'.pool) && HopsLeft(t', w') == HopsLeft(t, w)
  {
    w' := ReportRefines(t, t', w, i);
    assert w'.black == w.black;
    IdleSpendsNothing(t, t', w, w');
  }

  lemma WorkSpendsNothing(t: Tree, t': Tree, w: Wave, i: nat) returns (w': Wave)
    requires Represents(t, w) && NoWork(w.pool) && Work(t, t', i)
    ensures TreeShape(t') && WaveStep(w, w') && Represents(t', w') && NoWork(w'.pool) && HopsLeft(t', w') == HopsLeft(t, w)
  {
    w' := WorkRefines(t, t', w, i);
    IdleSpendsNothing(t, t', w, w');
  }

  lemma HopSpends(t: Tree, t': Tree, w: Wave, i: nat) returns (w': Wave)
    requires Represents(t, w) && WaveLaws(w) && NoWork(w.pool) && !w.done && Hop(t, t', i)
    ensures WaveStep(w, w') && Represents(t', w') && NoWork(w'.pool)
    ensures w'.done || HopsLeft(t', w') < HopsLeft(t, w)
  {
    assert i < |t.nodes|;
    hide Represents, WaveLaws, NoWork, Visit, Close, HopsLeft, LookDown, SignalChild, Enter;
    w' := w;
    if LookDown(t, t', i) && t.nodes[i].downToken {
      LookDownRefines(t, t', w, i);
      LookDownSpends(t, t', w, i);
    } else if SignalChild(t, t', i) {
      SignalRefines(t, t', w, i);
      SignalSpends(t, t', w, i);
    } else if i != 0 {
      w' := SendUpSpends(t, t', w, i);
    } else {
      w' := CloseSpends(t, t', w);
    }
  }

  lemma StepSpends(t: Tree, t': Tree, w: Wave) returns (w': Wave)
    requires Represents(t, w) && WaveLaws(w) && NoWork(w.pool) && !w.done && TreeStep(t, t')
    ensures WaveStep(w, w') && Represents(t', w') && NoWork(w'.pool)
    ensures w'.done || HopsLeft(t', w') + (if SomeHop(t, t') then 1 else 0) <= HopsLeft(t, w)
  {
    hide Represents, WaveLaws, NoWork, Report, HopsLeft, LookDown, SignalChild, Enter, Work, Hop;
    w' := w;
    if i: nat :| Hop(t, t', i) {
      w' := HopSpends(t, t', w, i);
    } else if i: nat :| LookDown(t, t', i) {
      LookDownRefines(t, t', w, i);
      LookDownSpends(t, t', w, i);
    } else if i: nat :| Work(t, t', i) {
      w' := WorkSpendsNothing(t, t', w, i);
    } else {
      var i: nat :| Enter(t, t', i) || SignalChild(t, t', i);
      assert Enter(t, t', i) && !HaveAll(t, i) by { NotAHop(t, t', i); }
      w' := ReportSpendsNothing(t, t', w, i);
    }
  }

  lemma NotAHop(t: Tree, t': Tree, i: nat)
    requires (Enter(t, t', i) || SignalChild(t, t', i)) && !Hop(t, t', i)
    ensures Enter(t, t', i) && !HaveAll(t, i)
  {
  }

  ghost function Hops(t: seq<Tree>, from: nat, last: nat): nat
    requires from <= last < |t|
    decreases last
  {
    if from == last then 0 else Hops(t, from, last - 1) + if SomeHop(t[last - 1], t[last]) then 1 else 0
  }

  lemma {:induction false} HopsAreSpent(t: seq<Tree>, from: nat, last: nat, w0: Wave) returns (w: Wave)
    requires Run(t) && from <= last < |t| && !t[last].globalTerm
    requires Represents(t[from], w0) && WaveLaws(w0) && NoWork(w0.pool)
    ensures Represents(t[last], w) && WaveLaws(w) && NoWork(w.pool)
    ensures Hops(t, from, last) + HopsLeft(t[last], w) <= HopsLeft(t[from], w0)
    decreases last
  {
    if from == last {
      w := w0;
    } else {
      hide WaveLaws, NoWork, WaveStep, HopsLeft, InWave;
      assert TreeStep(t[last - 1], t[last - 1 + 1]);
      hide TreeStep, SomeHop, Run;
      if t[last - 1].globalTerm { TerminationIsSafe(t, last - 1, last); }
      var w1 := HopsAreSpent(t, from, last - 1, w0);
      w := StepSpends(t[last - 1], t[last], w1);
      StepKeepsLaws(w1, w);
    }
  }

  /** Once no work is left, fewer than 16 hops per thread are made before globalTerm is set. */
  lemma TerminationIsDetected(t: seq<Tree>, from: nat, last: nat)
    requires Run(t) && from <= last < |t| && NoWork(t[from].pool)
    ensures t[last].globalTerm || Hops(t, from, last) < Times(4, 4 * |t[0].nodes|)
  {
    if !t[last].globalTerm {
      var w0 := Follow(t, from);
      var w := HopsAreSpent(t, from, last, w0);
      HopsLeftBounds(t[last], w);
      HopsLeftBounds(t[from], w0);
    }
  }

  // ----- some thread can hop

  /** The thread with the highest number that has a token and has signalled its children. */
  lemma {:induction false} LowestInTree(t: Tree, visited: set<nat>, bound: nat) returns (i: nat)
    requires TreeShape(t) && RootLaws(t, visited) && t.nodes[0].hasToken && 0 < bound <= |t.nodes|
    requires forall x: nat | 0 < x < |t.nodes| :: LinkLaws(t, visited, x)
    requires forall x: nat | x < |t.nodes| :: !t.nodes[x].downToken && !t.stage[x].Signal?
    requires forall x: nat | bound <= x < |t.nodes| :: !t.nodes[x].hasToken
    ensures i < |t.nodes| && HaveAll(t, i)
  {
    i := bound - 1;
    if t.nodes[i].hasToken {
      forall c: nat | HasChild(t, i, c) ensures t.nodes[i].upToken[c] != -1 {
        BinaryTies(i, c);
        assert LinkLaws(t, visited, BinaryChild(i, c));
      }
    } else {
      i := LowestInTree(t, visited, bound - 1);
    }
  }

  lemma SomeoneCanHop(t: Tree, w: Wave) returns (i: nat)
    requires Represents(t, w) && !w.done
    ensures i < |t.nodes| && (t.stage[i].Signal? || t.nodes[i].downToken || HaveAll(t, i))
  {
    if j: nat :| j < |t.nodes| && (t.stage[j].Signal? || t.nodes[j].downToken) {
      i := j;
    } else {
      i := LowestInTree(t, w.visited, |t.nodes|);
    }
  }

  ghost predicate OwnStep(t: Tree, t': Tree, i: nat) {
    Work(t, t', i) || Enter(t, t', i) || LookDown(t, t', i) || SignalChild(t, t', i)
  }

  ghost predicate SoloHop(p: seq<Tree>, i: nat) {
    && |p| >= 2 && (forall k: nat | k + 1 < |p| :: OwnStep(p[k], p[k + 1], i))
    && Hop(p[|p| - 2], p[|p| - 1], i)
  }

  /** A thread outside any call scans its empty queues and calls again. */
  lemma CallAgain(t: Tree, i: nat) returns (ready: Tree, called: Tree)
    requires TreeShape(t) && i < |t.nodes| && t.stage[i] == Outside && NoWork(t.pool)
    ensures ready == t || Work(t, ready, i)
    ensures ready.nodes == t.nodes && ready.stage == t.stage && TreeShape(ready) && Enter(ready, called, i)
  {
    ready := t;
    if t.pool.phase[i] == Scanning {
      ready := t.(pool := t.pool.(phase := t.pool.phase[i := SawEmpty]));
      assert SeeEmpty(t.pool, ready.pool, i);
    }
    called := AfterEnter(ready, i);
  }

  lemma CallAgainFor(t: Tree, i: nat) returns (p: seq<Tree>)
    requires TreeShape(t) && i < |t.nodes| && t.stage[i] == Outside && NoWork(t.pool)
    ensures 2 <= |p| <= 3 && p[0] == t && (forall k: nat | k + 1 < |p| :: OwnStep(p[k], p[k + 1], i))
    ensures Enter(p[|p| - 2], p[|p| - 1], i) && p[|p| - 2].nodes == t.nodes
  {
    var ready, called := CallAgain(t, i);
    p := if ready == t then [t, called] else [t, ready, called];
  }

  /** Without work left and before detection, some thread, even running alone, hops within four steps. */
  lemma HopIsNear(t: seq<Tree>, k: nat) returns (i: nat, p: seq<Tree>)
    requires Run(t) && k < |t| && NoWork(t[k].pool) && !t[k].globalTerm
    ensures 2 <= |p| <= 5 && p[0] == t[k] && SoloHop(p, i)
  {
    var s := t[k];
    var w := Follow(t, k);
    i := SomeoneCanHop(s, w);
    if s.stage[i].Signal? {
      p := [s, AfterSignal(s, i)];
    } else if s.nodes[i].downToken {
      if i > 0 { assert LinkLaws(s, w.visited, i); }
      hide NoWork, InWave;
      if s.stage[i] == CheckDown {
        p := [s, AfterCheckDown(s, i)];
      } else {
        p := CallAgainFor(s, i);
        var called := p[|p| - 1];
        p := p + [AfterCheckDown(called, i)];
      }
    } else {
      hide NoWork, InWave;
      if s.stage[i] == CheckDown {
        var out := AfterCheckDown(s, i);
        p := CallAgainFor(out, i);
        p := [s] + p;
      } else {
        p := CallAgainFor(s, i);
      }
    }
  }
}
