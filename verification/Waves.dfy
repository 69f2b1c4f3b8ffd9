/** Two-wave termination detection, apart from how the wave travels.

    Threads run the work loop: scan their queues, work, and between scans report to the detector. A
    wave visits every thread once and collects whether any of them had worked since its last visit;
    the master closes it. Two white waves in a row mean that all work is done. The ring and the tree
    detector are both shown to be refinements of this protocol. */
module Waves {
  import opened Sums

  /** Where a thread is in its work loop: about to scan, having found both its queues empty in the
      present scan, or having processed something since its last report. */
  datatype Phase = Scanning | SawEmpty | Working

  /** wl[i]: items in thread i's part of the worklist, pushed by i only, taken by anyone.
      aborted[i]: items whose iteration was rolled back and handed to i, pushed by anyone that is
      working, taken by i only. */
  datatype Pool = Pool(wl: seq<nat>, aborted: seq<nat>, phase: seq<Phase>)

  ghost predicate PoolShape(p: Pool, n: nat) {
    n > 0 && |p.wl| == |p.aborted| == |p.phase| == n
  }

  // ----- what a thread does between two reports

  /** Pop an item of one's own or steal one. */
  ghost predicate Take(p: Pool, p': Pool, i: nat, j: nat) {
    && i < |p.phase| && j < |p.wl| && p.wl[j] > 0 && p.phase[i] != SawEmpty
    && p' == p.(wl := p.wl[j := p.wl[j] - 1], phase := p.phase[i := Working])
  }

  ghost predicate TakeAborted(p: Pool, p': Pool, i: nat) {
    && i < |p.phase| && i < |p.aborted| && p.aborted[i] > 0 && p.phase[i] != SawEmpty
    && p' == p.(aborted := p.aborted[i := p.aborted[i] - 1], phase := p.phase[i := Working])
  }

  /** A working thread adds items to its own worklist. */
  ghost predicate Push(p: Pool, p': Pool, i: nat, items: nat) {
    && i < |p.phase| && i < |p.wl| && p.phase[i] == Working
    && p' == p.(wl := p.wl[i := p.wl[i] + items])
  }

  /** A working thread rolls its iteration back and hands the item to some thread for a retry. */
  ghost predicate Abort(p: Pool, p': Pool, i: nat, j: nat) {
    && i < |p.phase| && j < |p.aborted| && p.phase[i] == Working
    && p' == p.(aborted := p.aborted[j := p.aborted[j] + 1])
  }

  ghost predicate SeeEmpty(p: Pool, p': Pool, i: nat) {
    && i < |p.phase| && i < |p.wl| && i < |p.aborted|
    && p.phase[i] == Scanning && p.wl[i] == 0 && p.aborted[i] == 0
    && p' == p.(phase := p.phase[i := SawEmpty])
  }

  ghost predicate PoolStep(p: Pool, p': Pool, i: nat) {
    || (exists j: nat :: Take(p, p', i, j)) || TakeAborted(p, p', i)
    || (exists items: nat :: Push(p, p', i, items)) || (exists j: nat :: Abort(p, p', i, j))
    || SeeEmpty(p, p', i)
  }

  /** Any thread that has not just found its queues empty may take an item of any thread: stealing. */
  lemma AnyoneMayTake(p: Pool, n: nat, i: nat, j: nat)
    requires PoolShape(p, n) && i < n && j < n && p.wl[j] > 0 && p.phase[i] != SawEmpty
    ensures PoolStep(p, p.(wl := p.wl[j := p.wl[j] - 1], phase := p.phase[i := Working]), i)
  {
    assert Take(p, p.(wl := p.wl[j := p.wl[j] - 1], phase := p.phase[i := Working]), i, j);
  }

  /** It may take an item handed back to it. */
  lemma OwnerMayRetry(p: Pool, n: nat, i: nat)
    requires PoolShape(p, n) && i < n && p.aborted[i] > 0 && p.phase[i] != SawEmpty
    ensures PoolStep(p, p.(aborted := p.aborted[i := p.aborted[i] - 1], phase := p.phase[i := Working]), i)
  {
    assert TakeAborted(p, p.(aborted := p.aborted[i := p.aborted[i] - 1], phase := p.phase[i := Working]), i);
  }

  /** A working thread may push any number of items, and hand an item to any thread. */
  lemma WorkerMayPush(p: Pool, n: nat, i: nat, items: nat)
    requires PoolShape(p, n) && i < n && p.phase[i] == Working
    ensures PoolStep(p, p.(wl := p.wl[i := p.wl[i] + items]), i)
  {
    assert Push(p, p.(wl := p.wl[i := p.wl[i] + items]), i, items);
  }

  lemma WorkerMayAbort(p: Pool, n: nat, i: nat, j: nat)
    requires PoolShape(p, n) && i < n && j < n && p.phase[i] == Working
    ensures PoolStep(p, p.(aborted := p.aborted[j := p.aborted[j] + 1]), i)
  {
    assert Abort(p, p.(aborted := p.aborted[j := p.aborted[j] + 1]), i, j);
  }

  /** A scanning thread whose queues are empty may notice that. */
  lemma ScannerMaySeeEmpty(p: Pool, n: nat, i: nat)
    requires PoolShape(p, n) && i < n && p.phase[i] == Scanning && p.wl[i] == 0 && p.aborted[i] == 0
    ensures PoolStep(p, p.(phase := p.phase[i := SawEmpty]), i)
  {
  }

  /** No item is queued and no thread holds one. */
  ghost predicate NoWork(p: Pool) {
    && (forall i: nat | i < |p.wl| :: p.wl[i] == 0)
    && (forall i: nat | i < |p.aborted| :: p.aborted[i] == 0)
    && (forall i: nat | i < |p.phase| :: p.phase[i] != Working)
  }

  // ----- the detector

  /** black[i]: thread i has reported work since the wave last visited it. visited: the threads other
      than the master (thread 0) that the present wave has visited; tainted: one of them was black. */
  datatype Wave = Wave(pool: Pool, black: seq<bool>, visited: set<nat>, tainted: bool, lastWasWhite: bool, done: bool)

  ghost predicate Dirty(w: Wave, i: nat)
    requires i < |w.black| && i < |w.pool.phase|
  {
    w.black[i] || w.pool.phase[i] == Working
  }

  ghost predicate ReadyToReport(p: Pool, i: nat) {
    i < |p.phase| && p.phase[i] != Scanning
  }

  /** A report that does not meet the wave only records the colour. */
  ghost predicate Report(w: Wave, w': Wave, i: nat) {
    && ReadyToReport(w.pool, i) && i < |w.black|
    && w' == w.(black := w.black[i := Dirty(w, i)], pool := w.pool.(phase := w.pool.phase[i := Scanning]))
  }

  ghost predicate Visit(w: Wave, w': Wave, i: nat) {
    && ReadyToReport(w.pool, i) && i < |w.black| && i != 0 && i !in w.visited && !w.done
    && w' == w.(black := w.black[i := false], pool := w.pool.(phase := w.pool.phase[i := Scanning]),
                visited := w.visited + {i}, tainted := w.tainted || Dirty(w, i))
  }

  /** The master closes the wave: the second white one in a row ends the run, any other is followed
      by a new wave. */
  ghost predicate Close(w: Wave, w': Wave) {
    && ReadyToReport(w.pool, 0) && 0 < |w.black| && !w.done
    && (forall i: nat | 0 < i < |w.black| :: i in w.visited)
    && var failed := w.tainted || Dirty(w, 0);
       var w1 := w.(black := w.black[0 := false], pool := w.pool.(phase := w.pool.phase[0 := Scanning]));
       if w.lastWasWhite && !failed then w' == w1.(done := true)
       else w' == w1.(lastWasWhite := !failed, visited := {}, tainted := false)
  }

  ghost predicate WaveStep(w: Wave, w': Wave) {
    || w' == w
    || (exists i: nat :: PoolStep(w.pool, w'.pool, i) && w' == w.(pool := w'.pool))
    || (exists i: nat :: Report(w, w', i))
    || (exists i: nat :: Visit(w, w', i))
    || Close(w, w')
  }

  // ----- safety

  ghost predicate Quiet(w: Wave)
    requires |w.black| == |w.pool.phase|
  {
    NoWork(w.pool) && forall i: nat | i < |w.black| :: !Dirty(w, i)
  }

  /** Queued work that its owner pushed since the wave last found it idle. */
  ghost predicate OwnerDirty(w: Wave, i: nat)
    requires i < |w.black| && i < |w.pool.phase| && i < |w.pool.wl|
  {
    w.pool.wl[i] > 0 ==> Dirty(w, i)
  }

  /** The present wave, should it reach thread j, cannot pass it white without j having worked. */
  ghost predicate WillTaint(w: Wave, j: nat)
    requires j < |w.black| && j < |w.pool.phase| && j < |w.pool.aborted|
  {
    Dirty(w, j) || (w.pool.aborted[j] > 0 && w.pool.phase[j] == Scanning)
  }

  ghost predicate SomeDirty(w: Wave)
    requires |w.black| == |w.pool.phase|
  {
    exists j: nat :: j < |w.black| && Dirty(w, j)
  }

  /** In a wave that is still white: a visited thread's own queue is filled only by work the next
      visit will see, and if something was handed to it behind its back, whoever did so is dirty. */
  ghost predicate WhiteSoFar(w: Wave)
    requires |w.black| == |w.pool.phase| == |w.pool.wl| == |w.pool.aborted|
  {
    forall i: nat | i < |w.black| && i in w.visited ::
      OwnerDirty(w, i) && (w.pool.aborted[i] > 0 && w.pool.phase[i] == SawEmpty ==> SomeDirty(w))
  }

  /** In a white wave right after a white wave: either all is quiet, or some thread still to be
      visited will taint the wave. */
  ghost predicate SecondWhite(w: Wave)
    requires |w.black| == |w.pool.phase| == |w.pool.wl| == |w.pool.aborted|
  {
    && (forall i: nat | i < |w.black| :: OwnerDirty(w, i))
    && (Quiet(w) || exists j: nat :: j < |w.black| && j !in w.visited && WillTaint(w, j))
  }

  ghost predicate WaveLaws(w: Wave) {
    && PoolShape(w.pool, |w.black|) && (forall i | i in w.visited :: 0 < i < |w.black|)
    && (forall i: nat | i < |w.black| && w.pool.phase[i] == SawEmpty :: w.pool.wl[i] == 0)
    && (!w.tainted ==> WhiteSoFar(w))
    && (!w.tainted && w.lastWasWhite ==> SecondWhite(w))
    && (w.done ==> Quiet(w))
  }

  /** Working threads stay dirty, and quiet systems stay quiet. */
  lemma PoolStepMonotone(w: Wave, w': Wave, i: nat)
    requires PoolShape(w.pool, |w.black|) && PoolStep(w.pool, w'.pool, i) && w' == w.(pool := w'.pool)
    ensures PoolShape(w'.pool, |w.black|)
    ensures forall j: nat | j < |w.black| && Dirty(w, j) :: Dirty(w', j)
    ensures Quiet(w) ==> Quiet(w')
    ensures SomeDirty(w) ==> SomeDirty(w')
  {
    if SomeDirty(w) {
      var d: nat :| d < |w.black| && Dirty(w, d);
      assert Dirty(w', d);
    }
    if Quiet(w) {
      forall j: nat | j < |w.black| ensures !Dirty(w', j) { assert !Dirty(w, j); }
    }
  }

  lemma PoolStepKeepsWhite(w: Wave, w': Wave, i: nat)
    requires WaveLaws(w) && PoolStep(w.pool, w'.pool, i) && w' == w.(pool := w'.pool) && !w.tainted
    ensures PoolShape(w'.pool, |w.black|) && WhiteSoFar(w')
  {
    PoolStepMonotone(w, w', i);
    if w.pool.phase[i] == Working { assert Dirty(w', i); }
  }

  lemma PoolStepKeepsSecond(w: Wave, w': Wave, i: nat)
    requires WaveLaws(w) && PoolStep(w.pool, w'.pool, i) && w' == w.(pool := w'.pool)
    requires !w.tainted && w.lastWasWhite
    ensures PoolShape(w'.pool, |w.black|) && SecondWhite(w')
  {
    PoolStepMonotone(w, w', i);
    forall x: nat | x < |w.black| ensures OwnerDirty(w', x) { assert OwnerDirty(w, x); }
    if !Quiet(w) {
      var j: nat :| j < |w.black| && j !in w.visited && WillTaint(w, j);
      assert WillTaint(w', j);
    }
  }

  lemma PoolStepKeepsLaws(w: Wave, w': Wave, i: nat)
    requires WaveLaws(w) && PoolStep(w.pool, w'.pool, i) && w' == w.(pool := w'.pool)
    ensures WaveLaws(w')
  {
    PoolStepMonotone(w, w', i);
    if !w.tainted { PoolStepKeepsWhite(w, w', i); }
    if !w.tainted && w.lastWasWhite { PoolStepKeepsSecond(w, w', i); }
  }

  /** A clean thread that moves on, or any thread whose colour is recorded, changes nothing that the
      laws speak of, except that it no longer rests on a stale look at its queues. */
  lemma RestartKeepsWhite(w: Wave, w': Wave, i: nat)
    requires WaveLaws(w) && i < |w.black| && ReadyToReport(w.pool, i) && !w.tainted && !w'.tainted
    requires w'.pool == w.pool.(phase := w.pool.phase[i := Scanning]) && |w'.black| == |w.black|
    requires forall j: nat | j < |w.black| :: Dirty(w', j) == Dirty(w, j)
    requires w.visited <= w'.visited <= w.visited + {i} && (i in w'.visited - w.visited ==> !Dirty(w, i))
    ensures WhiteSoFar(w')
    ensures w.lastWasWhite ==> SecondWhite(w')
    ensures Quiet(w) ==> Quiet(w')
  {
    if SomeDirty(w) {
      var d: nat :| d < |w.black| && Dirty(w, d);
      assert Dirty(w', d);
    }
    if w.lastWasWhite {
      forall x: nat | x < |w.black| ensures OwnerDirty(w', x) { assert OwnerDirty(w, x); }
      if !Quiet(w) {
        var j: nat :| j < |w.black| && j !in w.visited && WillTaint(w, j);
        assert WillTaint(w', j);
      }
    }
  }

  lemma ReportKeepsLaws(w: Wave, w': Wave, i: nat)
    requires WaveLaws(w) && Report(w, w', i)
    ensures WaveLaws(w')
  {
    forall j: nat | j < |w.black| ensures Dirty(w', j) == Dirty(w, j) {}
    if !w.tainted { RestartKeepsWhite(w, w', i); }
  }

  lemma VisitKeepsLaws(w: Wave, w': Wave, i: nat)
    requires WaveLaws(w) && Visit(w, w', i)
    ensures WaveLaws(w')
  {
    if !w'.tainted {
      forall j: nat | j < |w.black| ensures Dirty(w', j) == Dirty(w, j) {}
      RestartKeepsWhite(w, w', i);
    }
  }

  lemma CloseKeepsLaws(w: Wave, w': Wave)
    requires WaveLaws(w) && Close(w, w')
    ensures WaveLaws(w')
  {
    var failed := w.tainted || Dirty(w, 0);
    if !failed {
      assert forall j: nat | j < |w.black| :: Dirty(w', j) == Dirty(w, j);
      if w.lastWasWhite {
        assert forall j: nat | j < |w.black| && j !in w.visited :: !WillTaint(w, j);
      } else if SomeDirty(w) {
        var d: nat :| d < |w.black| && Dirty(w, d);
        assert WillTaint(w', d);
      } else {
        if j: nat :| j < |w.black| && w'.pool.aborted[j] > 0 {
          assert WillTaint(w', j);
        }
      }
    }
  }

  lemma StepKeepsLaws(w: Wave, w': Wave)
    requires WaveLaws(w) && WaveStep(w, w')
    ensures WaveLaws(w')
  {
    if w' != w {
      if i: nat :| PoolStep(w.pool, w'.pool, i) && w' == w.(pool := w'.pool) {
        PoolStepKeepsLaws(w, w', i);
      } else if i: nat :| Report(w, w', i) {
        ReportKeepsLaws(w, w', i);
      } else if i: nat :| Visit(w, w', i) {
        VisitKeepsLaws(w, w', i);
      } else {
        CloseKeepsLaws(w, w');
      }
    }
  }

  ghost predicate Start(w: Wave) {
    && PoolShape(w.pool, |w.black|)
    && (forall i: nat | i < |w.pool.phase| :: w.pool.phase[i] == Scanning)
    && (forall i: nat | i < |w.pool.aborted| :: w.pool.aborted[i] == 0)
    && (forall i: nat | i < |w.black| :: w.black[i])
    && (forall i | i in w.visited :: 0 < i < |w.black|)
    && (w.tainted || (w.visited == {} && !w.lastWasWhite)) && !w.done
  }

  lemma StartKeepsLaws(w: Wave)
    requires Start(w)
    ensures WaveLaws(w)
  {
  }

  // ----- progress

  /** How many waves, the present one included, can end before the run does, once no work is left. */
  ghost function WavesLeft(w: Wave): nat {
    if forall i: nat | i < |w.black| :: !w.black[i] then
      if w.tainted then 3 else if w.lastWasWhite then 1 else 2
    else if forall i: nat | i < |w.black| && w.black[i] :: i !in w.visited then 3
    else 4
  }

  /** The number of wave moves (visits and closings) still possible. */
  ghost function MovesLeft(w: Wave): int {
    Times(WavesLeft(w), |w.black|) - |w.visited|
  }

  ghost predicate Moves(w: Wave, w': Wave) {
    (exists i: nat :: Visit(w, w', i)) || Close(w, w')
  }

  lemma {:induction false} VisitedBelow(s: set<nat>, n: nat)
    requires n > 0 && forall i | i in s :: 0 < i < n
    ensures |s| <= n - 1
  {
    if n == 1 {
      assert s == {};
    } else {
      VisitedBelow(s - {n - 1}, n - 1);
      assert |s| <= |s - {n - 1}| + 1;
    }
  }

  lemma MovesLeftBounds(w: Wave)
    requires WaveLaws(w)
    ensures 0 < MovesLeft(w) <= Times(4, |w.black|)
  {
    VisitedBelow(w.visited, |w.black|);
    var n := |w.black|;
    assert Times(1, n) == n + Times(0, n);
    assert Times(2, n) == n + Times(1, n);
    assert Times(3, n) == n + Times(2, n);
    assert Times(4, n) == n + Times(3, n);
  }

  lemma VisitKeepsWaves(w: Wave, w': Wave, i: nat)
    requires WaveLaws(w) && NoWork(w.pool) && Visit(w, w', i)
    ensures NoWork(w'.pool) && WavesLeft(w') <= WavesLeft(w)
  {
    var n := |w.black|;
    if forall j: nat | j < n :: !w.black[j] {
      assert forall j: nat | j < n :: !w'.black[j];
    } else if forall j: nat | j < n && w.black[j] :: j !in w.visited {
      assert forall j: nat | j < n && w'.black[j] :: j !in w'.visited;
    }
  }

  lemma CloseSpendsWave(w: Wave, w': Wave)
    requires WaveLaws(w) && NoWork(w.pool) && Close(w, w')
    ensures NoWork(w'.pool) && (w'.done || WavesLeft(w') < WavesLeft(w))
  {
    var n := |w.black|;
    if !w'.done && forall j: nat | j < n && w.black[j] :: j !in w.visited {
      assert forall j: nat | j < n :: !w'.black[j];
    }
  }

  lemma VisitProgress(w: Wave, w': Wave, i: nat)
    requires WaveLaws(w) && NoWork(w.pool) && Visit(w, w', i)
    ensures NoWork(w'.pool) && !w'.done && MovesLeft(w') < MovesLeft(w)
  {
    VisitKeepsWaves(w, w', i);
    assert w'.visited - {i} == w.visited;
    TimesMonotone(WavesLeft(w'), WavesLeft(w), |w.black|);
  }

  lemma CloseProgress(w: Wave, w': Wave)
    requires WaveLaws(w) && NoWork(w.pool) && Close(w, w')
    ensures NoWork(w'.pool) && (w'.done || MovesLeft(w') < MovesLeft(w))
  {
    CloseSpendsWave(w, w');
    VisitedBelow(w.visited, |w.black|);
    if !w'.done { TimesMonotone(WavesLeft(w'), WavesLeft(w), |w.black|); }
  }

  /** With no work left, reports and scans change nothing but the threads' phases. */
  lemma NoWorkIdle(w: Wave, w': Wave)
    requires WaveLaws(w) && NoWork(w.pool) && WaveStep(w, w') && !Moves(w, w')
    ensures NoWork(w'.pool) && w' == w.(pool := w'.pool)
  {
    if i: nat :| Report(w, w', i) {
      assert w'.black == w.black;
    }
  }

  /** Once no work is left none comes back, and every move of the wave brings detection closer: it
      happens by the end of the present wave plus three more. */
  lemma NoWorkProgress(w: Wave, w': Wave)
    requires WaveLaws(w) && NoWork(w.pool) && WaveStep(w, w') && !w.done
    ensures NoWork(w'.pool) && |w'.black| == |w.black|
    ensures if Moves(w, w') then w'.done || MovesLeft(w') < MovesLeft(w)
            else !w'.done && MovesLeft(w') == MovesLeft(w)
  {
    hide WaveLaws, NoWork, MovesLeft;
    if i: nat :| Visit(w, w', i) {
      VisitProgress(w, w', i);
    } else if Close(w, w') {
      CloseProgress(w, w');
    } else {
      NoWorkIdle(w, w');
      assert MovesLeft(w') == MovesLeft(w) by { MovesLeftFrame(w, w'); }
    }
  }

  lemma MovesLeftFrame(w: Wave, w': Wave)
    requires w' == w.(pool := w'.pool)
    ensures WavesLeft(w') == WavesLeft(w) && MovesLeft(w') == MovesLeft(w)
  {
  }
}
