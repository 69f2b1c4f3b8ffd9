/** Termination detection with a token passed around a ring of threads. A call of localTermination
    is split at its shared-memory accesses: the caller's own part, the write of the next thread's
    colour and epoch, and the write that raises its hasToken flag. */
module RingTermination {
  import opened Sums
  import opened Waves

  datatype TokenHolder = TokenHolder(
    tokenIsBlack: bool, hasToken: bool, processIsBlack: bool, epoch: int, first: bool, lastWasWhite: bool)

  /** What a call leads to: nothing for the ring, detection, or a token for the next thread. */
  datatype Outcome = Keeps | Detects | Sends(taint: bool, epoch: int)

  /** The master's record after it has judged a token, and whether the token came back black. */
  function Judge(th: TokenHolder): (TokenHolder, bool) {
    (th.(tokenIsBlack := false, processIsBlack := false,
         epoch := if th.first then th.epoch else th.epoch + 1, first := false),
     th.tokenIsBlack || th.processIsBlack)
  }

  /** The part of localTermination that touches only the calling thread's own record. */
  function Respond(th: TokenHolder, isSysMaster: bool, workHappened: bool): (TokenHolder, Outcome) {
    var th := th.(processIsBlack := th.processIsBlack || workHappened);
    if !th.hasToken then
      (th, Keeps)
    else if isSysMaster then
      var (th, failed) := Judge(th);
      if th.lastWasWhite && !failed then
        (th, Detects)
      else
        Forward(th.(lastWasWhite := !failed))
    else
      Forward(th)
  }

  function Forward(th: TokenHolder): (TokenHolder, Outcome) {
    (th.(processIsBlack := false, tokenIsBlack := false, hasToken := false),
     Sends(th.processIsBlack || th.tokenIsBlack, th.epoch))
  }

  /** How far a thread is in handing the token on. */
  datatype Passing = NotPassing | Colour(taint: bool, epoch: int) | Flag

  datatype Ring = Ring(pool: Pool, data: seq<TokenHolder>, passing: seq<Passing>, globalTerm: bool)

  ghost predicate RingShape(r: Ring) {
    PoolShape(r.pool, |r.data|) && |r.passing| == |r.data|
  }

  ghost function Next(r: Ring, i: nat): nat
    requires RingShape(r)
  {
    (i + 1) % |r.data|
  }

  ghost predicate Initial(r: Ring) {
    && RingShape(r) && !r.globalTerm
    && (forall i: nat | i < |r.data| ::
          && r.data[i] == TokenHolder(false, i == 0, true, 0, true, true) && r.passing[i] == NotPassing
          && r.pool.phase[i] == Scanning && r.pool.aborted[i] == 0)
  }

  ghost predicate Work(r: Ring, r': Ring, i: nat) {
    && RingShape(r) && i < |r.data| && r.passing[i] == NotPassing
    && PoolStep(r.pool, r'.pool, i) && r' == r.(pool := r'.pool)
  }

  /** The caller's own part of localTermination. */
  ghost function AfterCall(r: Ring, i: nat): Ring
    requires RingShape(r) && i < |r.data|
  {
    var (th, outcome) := Respond(r.data[i], i == 0, r.pool.phase[i] == Working);
    Ring(r.pool.(phase := r.pool.phase[i := Scanning]), r.data[i := th],
         if outcome.Sends? then r.passing[i := Colour(outcome.taint, outcome.epoch)] else r.passing,
         r.globalTerm || outcome.Detects?)
  }

  /** The first write to the next thread's record ... */
  ghost function AfterColour(r: Ring, i: nat): Ring
    requires RingShape(r) && i < |r.data| && r.passing[i].Colour?
  {
    var k := Next(r, i);
    r.(data := r.data[k := r.data[k].(tokenIsBlack := r.passing[i].taint, epoch := r.passing[i].epoch)],
       passing := r.passing[i := Flag])
  }

  /** ... and the second. */
  ghost function AfterFlag(r: Ring, i: nat): Ring
    requires RingShape(r) && i < |r.data|
  {
    var k := Next(r, i);
    r.(data := r.data[k := r.data[k].(hasToken := true)], passing := r.passing[i := NotPassing])
  }

  ghost predicate Call(r: Ring, r': Ring, i: nat) {
    && RingShape(r) && i < |r.data| && r.passing[i] == NotPassing && ReadyToReport(r.pool, i)
    && r' == AfterCall(r, i)
  }

  ghost predicate WriteColour(r: Ring, r': Ring, i: nat) {
    RingShape(r) && i < |r.data| && r.passing[i].Colour? && r' == AfterColour(r, i)
  }

  ghost predicate RaiseFlag(r: Ring, r': Ring, i: nat) {
    RingShape(r) && i < |r.data| && r.passing[i].Flag? && r' == AfterFlag(r, i)
  }

  ghost predicate RingStep(r: Ring, r': Ring) {
    exists i: nat :: Work(r, r', i) || Call(r, r', i) || WriteColour(r, r', i) || RaiseFlag(r, r', i)
  }

  // ----- which runs there are

  /** Whatever a thread outside a call does with the worklists is a step of the ring. */
  lemma AnyWorkIsStep(r: Ring, p: Pool, i: nat)
    requires RingShape(r) && i < |r.data| && r.passing[i] == NotPassing && PoolStep(r.pool, p, i)
    ensures RingStep(r, r.(pool := p))
  {
    assert Work(r, r.(pool := p), i);
  }

  /** In particular it may steal. */
  lemma StealIsStep(r: Ring, i: nat, j: nat)
    requires RingShape(r) && i < |r.data| && j < |r.data| && r.passing[i] == NotPassing
    requires r.pool.wl[j] > 0 && r.pool.phase[i] != SawEmpty
    ensures RingStep(r, r.(pool := r.pool.(wl := r.pool.wl[j := r.pool.wl[j] - 1], phase := r.pool.phase[i := Working])))
  {
    AnyoneMayTake(r.pool, |r.data|, i, j);
    AnyWorkIsStep(r, r.pool.(wl := r.pool.wl[j := r.pool.wl[j] - 1], phase := r.pool.phase[i := Working]), i);
  }

  /** A thread that has worked, or found nothing, may call. */
  lemma AnyoneMayCall(r: Ring, i: nat) returns (r': Ring)
    requires RingShape(r) && i < |r.data| && r.passing[i] == NotPassing && r.pool.phase[i] != Scanning
    ensures RingStep(r, r') && Call(r, r', i)
  {
    r' := AfterCall(r, i);
    assert Call(r, r', i);
  }

  /** Runs start with any number of threads and any initial work. */
  lemma AnyWorkToBegin(wl: seq<nat>) returns (r: Ring)
    requires |wl| > 0
    ensures Initial(r) && r.pool.wl == wl && |r.data| == |wl|
  {
    var n := |wl|;
    r := Ring(Pool(wl, seq(n, _ => 0), seq(n, _ => Scanning)),
              seq(n, i => TokenHolder(false, i == 0, true, 0, true, true)), seq(n, _ => NotPassing), false);
  }

  // ----- refinement of the two-wave protocol

  /** Thread i has the token, or is handing it on. */
  ghost predicate Holds(r: Ring, i: nat)
    requires i < |r.data| && i < |r.passing|
  {
    r.data[i].hasToken || r.passing[i] != NotPassing
  }

  /** The thread at ring position p. */
  ghost function Position(r: Ring, p: nat): (i: nat)
    requires 0 < p <= |r.data|
    ensures i == p % |r.data|
  {
    if p == |r.data| then 0 else p
  }

  /** The token has reached, or is on its way from thread p-1 to, position p; position n is the
      master again. */
  ghost predicate TokenAt(r: Ring, p: nat)
    requires RingShape(r)
  {
    && 0 < p <= |r.data|
    && (forall i: nat | i < |r.data| && i != p - 1 :: r.passing[i] == NotPassing)
    && (forall i: nat | i < |r.data| :: r.data[i].hasToken <==> i == Position(r, p) && r.passing[p - 1] == NotPassing)
  }

  ghost function TokenColour(r: Ring, p: nat): bool
    requires RingShape(r) && TokenAt(r, p)
  {
    if r.passing[p - 1].Colour? then r.passing[p - 1].taint else r.data[Position(r, p)].tokenIsBlack
  }

  ghost predicate Represents(r: Ring, w: Wave, p: nat) {
    && RingShape(r) && TokenAt(r, p)
    && w.pool == r.pool && |w.black| == |r.data| && w.done == r.globalTerm && w.lastWasWhite == r.data[0].lastWasWhite
    && (forall i: nat | i < |r.data| :: w.black[i] == r.data[i].processIsBlack)
    && (forall i: int :: i in w.visited <==> 0 < i < p)
    && w.tainted == (TokenColour(r, p) || r.data[0].first)
    && (r.data[0].first ==> p == |r.data| && r.data[0].hasToken && r.data[0].processIsBlack)
    && (r.globalTerm ==> p == |r.data| && r.data[0].hasToken && !r.data[0].tokenIsBlack && r.data[0].lastWasWhite)
  }

  ghost function Others(n: nat): (s: set<nat>)
    ensures forall i: int :: i in s <==> 0 < i < n
  {
    if n <= 1 then {} else Others(n - 1) + {n - 1}
  }

  lemma InitialRepresents(r: Ring) returns (w: Wave)
    requires Initial(r)
    ensures Represents(r, w, |r.data|) && Start(w)
  {
    var n := |r.data|;
    w := Wave(r.pool, seq(n, _ => true), Others(n), true, true, false);
  }

  lemma WorkRefines(r: Ring, r': Ring, w: Wave, p: nat, i: nat) returns (w': Wave)
    requires Represents(r, w, p) && Work(r, r', i)
    ensures PoolShape(r'.pool, |r.data|) && WaveStep(w, w') && Represents(r', w', p)
  {
    w' := w.(pool := r'.pool);
    assert PoolStep(w.pool, w'.pool, i);
  }

  lemma WriteColourRefines(r: Ring, r': Ring, w: Wave, p: nat, i: nat)
    requires Represents(r, w, p) && WriteColour(r, r', i)
    ensures Represents(r', w, p) && WaveStep(w, w)
  {
    assert i == p - 1;
    assert Next(r, i) == Position(r, p);
  }

  lemma RaiseFlagRefines(r: Ring, r': Ring, w: Wave, p: nat, i: nat)
    requires Represents(r, w, p) && RaiseFlag(r, r', i)
    ensures Represents(r', w, p) && WaveStep(w, w)
  {
    assert i == p - 1;
    assert Next(r, i) == Position(r, p);
  }

  /** A call without the token, and a call of the master after detection, only report. */
  lemma PlainCallRefines(r: Ring, r': Ring, w: Wave, p: nat, i: nat) returns (w': Wave)
    requires Represents(r, w, p) && WaveLaws(w) && Call(r, r', i) && (r.data[i].hasToken ==> r.globalTerm)
    ensures Report(w, w', i) && Represents(r', w', p)
  {
    w' := w.(black := w.black[i := Dirty(w, i)], pool := r'.pool);
    if r.globalTerm { assert !Dirty(w, i); }
  }

  lemma TokenCallRefines(r: Ring, r': Ring, w: Wave, p: nat, i: nat) returns (w': Wave)
    requires Represents(r, w, p) && Call(r, r', i) && r.data[i].hasToken && !r.globalTerm && i != 0
    ensures Visit(w, w', i) && Represents(r', w', p + 1)
  {
    w' := w.(black := w.black[i := false], pool := r'.pool, visited := w.visited + {i}, tainted := w.tainted || Dirty(w, i));
  }

  lemma MasterCallRefines(r: Ring, r': Ring, w: Wave, p: nat) returns (w': Wave, p': nat)
    requires Represents(r, w, p) && Call(r, r', 0) && r.data[0].hasToken && !r.globalTerm
    ensures Close(w, w') && Represents(r', w', p')
  {
    var failed := w.tainted || Dirty(w, 0);
    assert p == |r.data|;
    assert Position(r', 1) == Next(r, 0);
    var w1 := w.(black := w.black[0 := false], pool := r'.pool);
    if w.lastWasWhite && !failed {
      w', p' := w1.(done := true), p;
    } else {
      w', p' := w1.(lastWasWhite := !failed, visited := {}, tainted := false), 1;
    }
  }

  /** A call that takes the token. */
  ghost predicate TakesToken(r: Ring, r': Ring, i: nat) {
    Call(r, r', i) && r.data[i].hasToken && !r.globalTerm
  }

  ghost predicate TokenCall(r: Ring, r': Ring) {
    exists i: nat :: TakesToken(r, r', i)
  }

  /** Every step of the ring is a step of the two-wave protocol, and the calls that meet the token
      are its visits and closings. */
  lemma RingRefines(r: Ring, r': Ring, w: Wave, p: nat) returns (w': Wave, p': nat)
    requires Represents(r, w, p) && WaveLaws(w) && RingStep(r, r')
    ensures WaveStep(w, w') && Represents(r', w', p')
    ensures TokenCall(r, r') ==> Moves(w, w')
  {
    hide WaveLaws, Represents, WaveStep, Moves, Call, Work, WriteColour, RaiseFlag;
    p' := p;
    if i: nat :| TakesToken(r, r', i) {
      w', p' := CallRefines(r, r', w, p, i);
    } else if i: nat :| Call(r, r', i) {
      w', p' := CallRefines(r, r', w, p, i);
    } else if i: nat :| Work(r, r', i) {
      w' := WorkRefines(r, r', w, p, i);
    } else if i: nat :| WriteColour(r, r', i) {
      w' := w;
      WriteColourRefines(r, r', w, p, i);
    } else {
      w' := w;
      var i: nat :| RaiseFlag(r, r', i);
      RaiseFlagRefines(r, r', w, p, i);
    }
  }

  lemma CallRefines(r: Ring, r': Ring, w: Wave, p: nat, i: nat) returns (w': Wave, p': nat)
    requires Represents(r, w, p) && WaveLaws(w) && Call(r, r', i)
    ensures WaveStep(w, w') && Represents(r', w', p')
    ensures r.data[i].hasToken && !r.globalTerm ==> Moves(w, w')
  {
    hide WaveLaws, Represents, Visit, Report, Close;
    p' := p;
    if !r.data[i].hasToken || r.globalTerm {
      w' := PlainCallRefines(r, r', w, p, i);
    } else if i != 0 {
      w' := TokenCallRefines(r, r', w, p, i);
      p' := p + 1;
    } else {
      w', p' := MasterCallRefines(r, r', w, p);
    }
  }

  // ----- runs

  ghost predicate Run(t: seq<Ring>) {
    |t| > 0 && Initial(t[0]) && forall k: nat | k + 1 < |t| :: RingStep(t[k], t[k + 1])
  }

  lemma {:induction false} Follow(t: seq<Ring>, k: nat) returns (w: Wave, p: nat)
    requires Run(t) && k < |t|
    ensures Represents(t[k], w, p) && WaveLaws(w) && |t[k].data| == |t[0].data|
  {
    if k == 0 {
      w := InitialRepresents(t[0]);
      p := |t[0].data|;
      StartKeepsLaws(w);
    } else {
      var w0, p0 := Follow(t, k - 1);
      assert RingStep(t[k - 1], t[k - 1 + 1]);
      w, p := RingRefines(t[k - 1], t[k], w0, p0);
      StepKeepsLaws(w0, w);
    }
  }

  /** In every run of any number of threads there is exactly one token: raised at one thread, or
      between one thread's two writes. */
  lemma OneToken(t: seq<Ring>, k: nat)
    requires Run(t) && k < |t|
    ensures RingShape(t[k])
    ensures exists i: nat :: i < |t[k].data| && Holds(t[k], i) && forall j: nat | j < |t[k].data| && Holds(t[k], j) :: j == i
  {
    var w, p := Follow(t, k);
    var i: nat := if t[k].passing[p - 1] == NotPassing then Position(t[k], p) else p - 1;
    assert Holds(t[k], i);
  }

  /** globalTerm is set only when no item is queued anywhere and no thread holds one, and that stays
      so: no later call reports work, and none moves a token. */
  lemma {:induction false} TerminationIsSafe(t: seq<Ring>, k: nat, later: nat)
    requires Run(t) && k <= later < |t| && t[k].globalTerm
    ensures t[later].globalTerm && RingShape(t[later]) && NoWork(t[later].pool)
    ensures forall i: nat | i < |t[later].data| :: t[later].passing[i] == NotPassing
  {
    var w, p := Follow(t, later);
    if later > k {
      TerminationIsSafe(t, k, later - 1);
      assert RingStep(t[later - 1], t[later - 1 + 1]);
    }
  }

  ghost function TokenCalls(t: seq<Ring>, from: nat, last: nat): nat
    requires from <= last < |t|
    decreases last
  {
    if from == last then 0 else TokenCalls(t, from, last - 1) + if TokenCall(t[last - 1], t[last]) then 1 else 0
  }

  lemma {:induction false} MovesAreSpent(t: seq<Ring>, from: nat, last: nat, w0: Wave, p0: nat) returns (w: Wave, p: nat)
    requires Run(t) && from <= last < |t| && !t[last].globalTerm
    requires Represents(t[from], w0, p0) && WaveLaws(w0) && NoWork(w0.pool)
    ensures Represents(t[last], w, p) && WaveLaws(w) && NoWork(w.pool) && |w.black| == |w0.black|
    ensures TokenCalls(t, from, last) + MovesLeft(w) <= MovesLeft(w0)
    decreases last
  {
    if from == last {
      w, p := w0, p0;
    } else {
      hide WaveLaws, NoWork, WaveStep, Moves;
      assert RingStep(t[last - 1], t[last - 1 + 1]);
      hide RingStep, TokenCall, Run;
      if t[last - 1].globalTerm { TerminationIsSafe(t, last - 1, last); }
      var w1, p1 := MovesAreSpent(t, from, last - 1, w0, p0);
      w, p := RingRefines(t[last - 1], t[last], w1, p1);
      StepKeepsLaws(w1, w);
      NoWorkProgress(w1, w);
    }
  }

  /** Once no work is left, the token is taken fewer than four times per thread (the rest of the
      present circulation and three more) before globalTerm is set. */
  lemma TerminationIsDetected(t: seq<Ring>, from: nat, last: nat)
    requires Run(t) && from <= last < |t| && NoWork(t[from].pool)
    ensures t[last].globalTerm || TokenCalls(t, from, last) < Times(4, |t[0].data|)
  {
    if !t[last].globalTerm {
      var w0, p0 := Follow(t, from);
      var w, p := MovesAreSpent(t, from, last, w0, p0);
      MovesLeftBounds(w);
      MovesLeftBounds(w0);
    }
  }

  ghost predicate OwnStep(r: Ring, r': Ring, i: nat) {
    Work(r, r', i) || Call(r, r', i) || WriteColour(r, r', i) || RaiseFlag(r, r', i)
  }

  /** A thread that is not in the middle of a call can always be the next to do something. */
  lemma LooksOrWorks(r: Ring, i: nat) returns (r': Ring)
    requires RingShape(r) && i < |r.data| && r.passing[i] == NotPassing && r.pool.phase[i] == Scanning
    ensures Work(r, r', i) && RingShape(r') && r'.data == r.data && r'.passing == r.passing && r'.globalTerm == r.globalTerm
    ensures ReadyToReport(r'.pool, i)
  {
    if r.pool.wl[i] > 0 {
      r' := r.(pool := r.pool.(wl := r.pool.wl[i := r.pool.wl[i] - 1], phase := r.pool.phase[i := Working]));
      assert Take(r.pool, r'.pool, i, i);
    } else if r.pool.aborted[i] > 0 {
      r' := r.(pool := r.pool.(aborted := r.pool.aborted[i := r.pool.aborted[i] - 1], phase := r.pool.phase[i := Working]));
      assert TakeAborted(r.pool, r'.pool, i);
    } else {
      r' := r.(pool := r.pool.(phase := r.pool.phase[i := SawEmpty]));
      assert SeeEmpty(r.pool, r'.pool, i);
    }
  }

  /** The token is never stuck: whoever has it can always take a step. */
  lemma HolderCanStep(t: seq<Ring>, k: nat) returns (i: nat, r': Ring)
    requires Run(t) && k < |t|
    ensures i < |t[k].data| && i < |t[k].passing| && Holds(t[k], i) && OwnStep(t[k], r', i)
  {
    var r := t[k];
    var w, p := Follow(t, k);
    i := if r.passing[p - 1] == NotPassing then Position(r, p) else p - 1;
    if r.passing[i].Colour? {
      r' := AfterColour(r, i);
    } else if r.passing[i].Flag? {
      r' := AfterFlag(r, i);
    } else if ReadyToReport(r.pool, i) {
      r' := AfterCall(r, i);
    } else {
      r' := LooksOrWorks(r, i);
    }
  }

  /** Thread i alone takes the token within two steps. */
  lemma OwnerCalls(r: Ring, i: nat) returns (p: seq<Ring>)
    requires RingShape(r) && i < |r.data| && r.passing[i] == NotPassing && r.data[i].hasToken && !r.globalTerm
    ensures 2 <= |p| <= 3 && p[0] == r && (forall m: nat | m + 1 < |p| :: OwnStep(p[m], p[m + 1], i))
    ensures TakesToken(p[|p| - 2], p[|p| - 1], i)
  {
    if ReadyToReport(r.pool, i) {
      p := [r, AfterCall(r, i)];
    } else {
      var ready := LooksOrWorks(r, i);
      p := [r, ready, AfterCall(ready, i)];
    }
  }

  lemma TokenPosition(t: seq<Ring>, k: nat) returns (p: nat)
    requires Run(t) && k < |t|
    ensures RingShape(t[k]) && TokenAt(t[k], p)
  {
    var w;
    w, p := Follow(t, k);
  }

  /** Before detection the token is taken within four steps: by the thread that has it, running alone,
      or, if it is being handed on, by the next thread after the first has finished doing so. This needs
      nothing of the work that is left. */
  lemma TokenCallIsNear(t: seq<Ring>, k: nat) returns (holder: nat, taker: nat, handover: nat, p: seq<Ring>)
    requires Run(t) && k < |t| && !t[k].globalTerm
    ensures RingShape(t[k]) && holder < |t[k].data| && Holds(t[k], holder)
    ensures taker == if t[k].passing[holder] == NotPassing then holder else Next(t[k], holder)
    ensures 2 <= |p| <= 5 && p[0] == t[k] && handover <= 2 && (t[k].passing[holder] == NotPassing ==> handover == 0)
    ensures forall m: nat | m + 1 < |p| :: OwnStep(p[m], p[m + 1], if m < handover then holder else taker)
    ensures TakesToken(p[|p| - 2], p[|p| - 1], taker)
  {
    hide Run, OwnStep, TakesToken;
    var r := t[k];
    var pos := TokenPosition(t, k);
    if r.passing[pos - 1] == NotPassing {
      holder, handover := Position(r, pos), 0;
      taker := holder;
      p := OwnerCalls(r, holder);
    } else {
      holder := pos - 1;
      taker := Next(r, holder);
      var handing := HandsOn(r, holder);
      handover := |handing| - 1;
      p := OwnerCalls(handing[handover], taker);
      assert forall m: nat | m + 1 < |p| :: OwnStep(p[m], p[m + 1], taker);
      p := JoinSteps(handing, p, holder, taker);
    }
  }

  lemma JoinSteps(p: seq<Ring>, q: seq<Ring>, i: nat, j: nat) returns (s: seq<Ring>)
    requires |p| > 0 && |q| > 1 && p[|p| - 1] == q[0]
    requires forall m: nat | m + 1 < |p| :: OwnStep(p[m], p[m + 1], i)
    requires forall m: nat | m + 1 < |q| :: OwnStep(q[m], q[m + 1], j)
    ensures |s| == |p| + |q| - 1 && s[0] == p[0] && s[|s| - 2] == q[|q| - 2] && s[|s| - 1] == q[|q| - 1]
    ensures forall m: nat | m + 1 < |s| :: OwnStep(s[m], s[m + 1], if m < |p| - 1 then i else j)
  {
    hide OwnStep;
    s := p + q[1..];
    forall m: nat | m + 1 < |s| ensures OwnStep(s[m], s[m + 1], if m < |p| - 1 then i else j) {
      if m + 1 < |p| {
        assert OwnStep(p[m], p[m + 1], i);
      } else {
        var n := m + 1 - |p|;
        assert OwnStep(q[n], q[n + 1], j);
      }
    }
  }

  /** A thread that is handing the token on finishes in its next one or two steps. */
  lemma HandsOn(r: Ring, i: nat) returns (p: seq<Ring>)
    requires RingShape(r) && i < |r.data| && r.passing[i] != NotPassing && !r.globalTerm
    requires forall j: nat | j < |r.data| && j != i :: r.passing[j] == NotPassing
    ensures 2 <= |p| <= 3 && p[0] == r && (forall m: nat | m + 1 < |p| :: OwnStep(p[m], p[m + 1], i))
    ensures var last := p[|p| - 1];
            && RingShape(last) && |last.data| == |r.data| && !last.globalTerm
            && last.data[Next(r, i)].hasToken && last.passing[Next(r, i)] == NotPassing
  {
    if r.passing[i].Colour? {
      var coloured := AfterColour(r, i);
      p := [r, coloured, AfterFlag(coloured, i)];
    } else {
      p := [r, AfterFlag(r, i)];
    }
  }

  // ----- the code

  /** The records after thread id has handed on what it sends. */
  ghost function Delivered(data: seq<TokenHolder>, id: nat, outcome: Outcome): (d: seq<TokenHolder>)
    requires id < |data|
    ensures !outcome.Sends? ==> d == data
  {
    var k := (id + 1) % |data|;
    if outcome.Sends? then data[k := data[k].(tokenIsBlack := outcome.taint, epoch := outcome.epoch, hasToken := true)]
    else data
  }

  /** What one call, uninterrupted, makes of all the records. */
  ghost function Completed(data: seq<TokenHolder>, globalTerm: bool, id: nat, workHappened: bool): (seq<TokenHolder>, bool)
    requires id < |data|
  {
    var (th, outcome) := Respond(data[id], id == 0, workHappened);
    (Delivered(data[id := th], id, outcome), globalTerm || outcome.Detects?)
  }

  /** An uninterrupted call is the caller's part followed, if it sends the token on, by the two writes. */
  lemma CompletedIsRingSteps(r: Ring, id: nat) returns (called: Ring, coloured: Ring, done: Ring)
    requires RingShape(r) && id < |r.data| && r.passing[id] == NotPassing && ReadyToReport(r.pool, id)
    ensures Call(r, called, id)
    ensures if called.passing[id] == NotPassing then done == called
            else WriteColour(called, coloured, id) && RaiseFlag(coloured, done, id)
    ensures done.passing == r.passing
    ensures done.data == Completed(r.data, r.globalTerm, id, r.pool.phase[id] == Working).0
    ensures done.globalTerm == Completed(r.data, r.globalTerm, id, r.pool.phase[id] == Working).1
  {
    called := AfterCall(r, id);
    if called.passing[id] == NotPassing {
      coloured, done := called, called;
    } else {
      coloured := AfterColour(called, id);
      done := AfterFlag(coloured, id);
      assert done.passing == r.passing;
    }
  }

  class LocalTerminationDetection {
    var data: seq<TokenHolder>
    var globalTerm: bool

    method InitializeThread(id: nat)
      requires id < |data|
      modifies this
      ensures data == old(data)[id := TokenHolder(false, id == 0, true, 0, true, true)] && !globalTerm
    {
      data := data[id := TokenHolder(false, false, true, 0, true, true)];
      globalTerm := false;
      if id == 0 {
        data := data[id := data[id].(hasToken := true)];
      }
    }

    method PropToken(id: nat, isBlack: bool, epoch: int)
      requires id < |data|
      modifies `data
      ensures |data| == |old(data)|
      ensures var k := (id + 1) % |data|;
              && data[k].tokenIsBlack == isBlack && data[k].epoch == epoch && data[k].hasToken
              && data[k].processIsBlack == old(data)[k].processIsBlack
              && data[k].first == old(data)[k].first && data[k].lastWasWhite == old(data)[k].lastWasWhite
      ensures forall j: nat | j < |data| && j != (id + 1) % |data| :: data[j] == old(data)[j]
    {
      var k := (id + 1) % |data|;
      data := data[k := data[k].(tokenIsBlack := isBlack)];
      data := data[k := data[k].(epoch := epoch)];
      data := data[k := data[k].(hasToken := true)];
    }

    method LocalTermination(id: nat, workHappened: bool)
      requires id < |data|
      modifies this
      ensures data == Completed(old(data), old(globalTerm), id, workHappened).0
      ensures globalTerm == Completed(old(data), old(globalTerm), id, workHappened).1
    {
      hide Delivered, Judge;
      ghost var start := data;
      var th := data[id];
      data := data[id := th.(processIsBlack := th.processIsBlack || workHappened)];
      if th.hasToken {
        var detected := false;
        if id == 0 {
          detected := JudgeToken();
        }
        if !detected {
          ghost var ready := data;
          PassOn(id);
          assert ready[id := Forward(ready[id]).0] == start[id := Forward(ready[id]).0];
        }
      }
    }

    /** The master's part: has the second white token in a row come back? */
    method JudgeToken() returns (detected: bool)
      requires 0 < |data|
      modifies this
      ensures var (th, failed) := Judge(old(data)[0]);
              && detected == (th.lastWasWhite && !failed) && globalTerm == (old(globalTerm) || detected)
              && data == old(data)[0 := if detected then th else th.(lastWasWhite := !failed)]
      ensures var was, black := old(data)[0], old(data)[0].tokenIsBlack || old(data)[0].processIsBlack;
              && data[0].epoch == (if was.first then was.epoch else was.epoch + 1)
              && !data[0].first && !data[0].tokenIsBlack && !data[0].processIsBlack && data[0].hasToken == was.hasToken
              && detected == (was.lastWasWhite && !black) && (!detected ==> data[0].lastWasWhite == !black)
    {
      var th := data[0];
      var failed := th.tokenIsBlack || th.processIsBlack;
      th := th.(tokenIsBlack := false, processIsBlack := false);
      if !th.first {
        th := th.(epoch := th.epoch + 1);
      }
      th := th.(first := false);
      data := data[0 := th];
      if th.lastWasWhite && !failed {
        globalTerm := true;
        return true;
      }
      th := th.(lastWasWhite := !failed);
      data := data[0 := th];
      return false;
    }

    method PassOn(id: nat)
      requires id < |data|
      modifies `data
      ensures var (th, outcome) := Forward(old(data)[id]);
              data == Delivered(old(data)[id := th], id, outcome)
    {
      var th := data[id];
      var taint := th.processIsBlack || th.tokenIsBlack;
      th := th.(processIsBlack := false, tokenIsBlack := false, hasToken := false);
      data := data[id := th];
      ghost var sent := data;
      PropToken(id, taint, th.epoch);
      ghost var k := (id + 1) % |data|;
      assert data == sent[k := sent[k].(tokenIsBlack := taint, epoch := th.epoch, hasToken := true)];
    }
  }
}
