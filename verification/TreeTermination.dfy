/** Termination detection over a binary tree of threads: a token goes down to every thread, and comes
    back up once a thread and all below it have reported. Calls are split wherever another thread can
    see the difference: after the token has been sent up, and at each child that is signalled. */
module TreeTermination {
  import opened Trees
  import opened Waves

  datatype TokenHolder = TokenHolder(
    downToken: bool, upToken: seq<int>, processIsBlack: bool, hasToken: bool, lastWasWhite: bool)

  /** Where a thread is in processToken. */
  datatype Stage = Outside | CheckDown | Signal(c: nat)

  datatype Tree = Tree(pool: Pool, nodes: seq<TokenHolder>, stage: seq<Stage>, globalTerm: bool)

  ghost predicate TreeShape(t: Tree) {
    && PoolShape(t.pool, |t.nodes|) && |t.stage| == |t.nodes|
    && (forall i: nat | i < |t.nodes| :: |t.nodes[i].upToken| == 2)
    && (forall i: nat | i < |t.nodes| && t.stage[i].Signal? :: t.stage[i].c < 2)
  }

  ghost predicate Initial(t: Tree) {
    && TreeShape(t) && !t.globalTerm
    && (forall i: nat | i < |t.nodes| ::
          && t.nodes[i] == TokenHolder(i == 0, [0, 0], true, false, false) && t.stage[i] == Outside
          && t.pool.phase[i] == Scanning && t.pool.aborted[i] == 0)
  }

  // ----- steps

  ghost predicate HasChild(t: Tree, i: nat, c: nat) {
    c < 2 && BinaryChild(i, c) < |t.nodes|
  }

  ghost predicate HaveAll(t: Tree, i: nat)
    requires TreeShape(t) && i < |t.nodes|
  {
    t.nodes[i].hasToken && forall c: nat | HasChild(t, i, c) :: t.nodes[i].upToken[c] != -1
  }

  /** The colour thread i would send up: its own, and what has come from its children. */
  ghost predicate Black(t: Tree, i: nat)
    requires TreeShape(t) && i < |t.nodes|
  {
    || t.nodes[i].processIsBlack || t.pool.phase[i] == Working
    || exists c: nat :: HasChild(t, i, c) && t.nodes[i].upToken[c] != -1 && t.nodes[i].upToken[c] != 0
  }

  ghost function SendUp(t: Tree, nodes: seq<TokenHolder>, i: nat, black: bool): seq<TokenHolder>
    requires TreeShape(t) && 0 < i < |t.nodes| && |nodes| == |t.nodes|
    requires forall j: nat | j < |nodes| :: |nodes[j].upToken| == 2
  {
    var p := BinaryParent(i);
    nodes[p := nodes[p].(upToken := nodes[p].upToken[BinarySlot(i) := if black then 1 else 0])]
  }

  /** A call up to the point where the token, if complete, has been sent up or the wave closed. */
  ghost function AfterEnter(t: Tree, i: nat): Tree
    requires TreeShape(t) && i < |t.nodes|
  {
    var pool := t.pool.(phase := t.pool.phase[i := Scanning]);
    var th := t.nodes[i];
    if !HaveAll(t, i) then
      t.(pool := pool, stage := t.stage[i := CheckDown],
         nodes := t.nodes[i := th.(processIsBlack := th.processIsBlack || t.pool.phase[i] == Working)])
    else
      var th := th.(processIsBlack := false, hasToken := false);
      if i != 0 then
        t.(pool := pool, stage := t.stage[i := CheckDown], nodes := SendUp(t, t.nodes[i := th], i, Black(t, i)))
      else if th.lastWasWhite && !Black(t, i) then
        t.(pool := pool, nodes := t.nodes[i := th], globalTerm := true)
      else
        t.(pool := pool, stage := t.stage[i := CheckDown],
           nodes := t.nodes[i := th.(lastWasWhite := !Black(t, i), downToken := true)])
  }

  ghost function AfterCheckDown(t: Tree, i: nat): Tree
    requires TreeShape(t) && i < |t.nodes|
  {
    if t.nodes[i].downToken then
      t.(nodes := t.nodes[i := t.nodes[i].(downToken := false, hasToken := true)], stage := t.stage[i := Signal(0)])
    else
      t.(stage := t.stage[i := Outside])
  }

  ghost function AfterSignal(t: Tree, i: nat): Tree
    requires TreeShape(t) && i < |t.nodes| && t.stage[i].Signal?
  {
    var c := t.stage[i].c;
    var nodes := t.nodes[i := t.nodes[i].(upToken := t.nodes[i].upToken[c := -1])];
    var j := BinaryChild(i, c);
    t.(nodes := if j < |nodes| then nodes[j := nodes[j].(downToken := true)] else nodes,
       stage := t.stage[i := if c == 0 then Signal(1) else Outside])
  }

  /** What the parts of a call write, with the numbers of the threads written out: a complete token goes
      to slot (i-1) % 2 of thread (i-1) / 2, and the children signalled are 2i+1 and then 2i+2. */
  lemma EnterWrites(t: Tree, i: nat)
    requires TreeShape(t) && 0 < i < |t.nodes| && HaveAll(t, i)
    ensures var t', p := AfterEnter(t, i), (i - 1) / 2;
            && |t'.nodes| == |t.nodes| && t'.globalTerm == t.globalTerm && t'.stage == t.stage[i := CheckDown]
            && t'.nodes[i] == t.nodes[i].(processIsBlack := false, hasToken := false)
            && t'.nodes[p] == t.nodes[p].(upToken := t.nodes[p].upToken[(i - 1) % 2 := if Black(t, i) then 1 else 0])
            && forall j: nat | j < |t.nodes| && j != i && j != p :: t'.nodes[j] == t.nodes[j]
  {
  }

  lemma HaveAllCounts(t: Tree, i: nat)
    requires TreeShape(t) && i < |t.nodes|
    ensures HaveAll(t, i) ==
              (t.nodes[i].hasToken && forall c: nat | c < 2 && 2 * i + c + 1 < |t.nodes| :: t.nodes[i].upToken[c] != -1)
  {
    assert forall c: nat :: HasChild(t, i, c) <==> c < 2 && 2 * i + c + 1 < |t.nodes|;
  }

  lemma SignalWrites(t: Tree, i: nat)
    requires TreeShape(t) && i < |t.nodes| && t.stage[i].Signal?
    ensures var t', c := AfterSignal(t, i), t.stage[i].c;
            && |t'.nodes| == |t.nodes| && t'.stage == t.stage[i := if c == 0 then Signal(1) else Outside]
            && t'.nodes[i] == t.nodes[i].(upToken := t.nodes[i].upToken[c := -1])
            && forall j: nat | j < |t.nodes| && j != i ::
                 t'.nodes[j] == if j == 2 * i + c + 1 then t.nodes[j].(downToken := true) else t.nodes[j]
  {
  }

  lemma LookDownWrites(t: Tree, i: nat)
    requires TreeShape(t) && i < |t.nodes|
    ensures var t' := AfterCheckDown(t, i);
            if t.nodes[i].downToken then
              && t'.nodes == t.nodes[i := t.nodes[i].(downToken := false, hasToken := true)]
              && t'.stage == t.stage[i := Signal(0)]
            else t'.nodes == t.nodes && t'.stage == t.stage[i := Outside]
  {
  }

  ghost predicate Work(t: Tree, t': Tree, i: nat) {
    && TreeShape(t) && i < |t.nodes| && t.stage[i] == Outside
    && PoolStep(t.pool, t'.pool, i) && t' == t.(pool := t'.pool)
  }
  ghost predicate Enter(t: Tree, t': Tree, i: nat) {
    && TreeShape(t) && i < |t.nodes| && t.stage[i] == Outside && ReadyToReport(t.pool, i)
    && t' == AfterEnter(t, i)
  }
  ghost predicate LookDown(t: Tree, t': Tree, i: nat) {
    TreeShape(t) && i < |t.nodes| && t.stage[i] == CheckDown && t' == AfterCheckDown(t, i)
  }
  ghost predicate SignalChild(t: Tree, t': Tree, i: nat) {
    TreeShape(t) && i < |t.nodes| && t.stage[i].Signal? && t' == AfterSignal(t, i)
  }

  ghost predicate TreeStep(t: Tree, t': Tree) {
    exists i: nat :: Work(t, t', i) || Enter(t, t', i) || LookDown(t, t', i) || SignalChild(t, t', i)
  }

  // ----- which runs there are

  /** Whatever a thread outside a call does with the worklists is a step of the tree. */
  lemma AnyWorkIsStep(t: Tree, p: Pool, i: nat)
    requires TreeShape(t) && i < |t.nodes| && t.stage[i] == Outside && PoolStep(t.pool, p, i)
    ensures TreeStep(t, t.(pool := p))
  {
    assert Work(t, t.(pool := p), i);
  }

  /** In particular it may steal. */
  lemma StealIsStep(t: Tree, i: nat, j: nat)
    requires TreeShape(t) && i < |t.nodes| && j < |t.nodes| && t.stage[i] == Outside
    requires t.pool.wl[j] > 0 && t.pool.phase[i] != SawEmpty
    ensures TreeStep(t, t.(pool := t.pool.(wl := t.pool.wl[j := t.pool.wl[j] - 1], phase := t.pool.phase[i := Working])))
  {
    AnyoneMayTake(t.pool, |t.nodes|, i, j);
    AnyWorkIsStep(t, t.pool.(wl := t.pool.wl[j := t.pool.wl[j] - 1], phase := t.pool.phase[i := Working]), i);
  }

  /** A thread that has worked, or found nothing, may call, and a thread in a call may go on. */
  lemma AnyoneMayCall(t: Tree, i: nat) returns (t': Tree)
    requires TreeShape(t) && i < |t.nodes| && (t.stage[i] == Outside ==> t.pool.phase[i] != Scanning)
    ensures TreeStep(t, t') && (Enter(t, t', i) || LookDown(t, t', i) || SignalChild(t, t', i))
  {
    t' := if t.stage[i] == Outside then AfterEnter(t, i)
          else if t.stage[i] == CheckDown then AfterCheckDown(t, i)
          else AfterSignal(t, i);
    assert Enter(t, t', i) || LookDown(t, t', i) || SignalChild(t, t', i);
  }

  /** Runs start with any number of threads and any initial work. */
  lemma AnyWorkToBegin(wl: seq<nat>) returns (t: Tree)
    requires |wl| > 0
    ensures Initial(t) && t.pool.wl == wl && |t.nodes| == |wl|
  {
    var n := |wl|;
    t := Tree(Pool(wl, seq(n, _ => 0), seq(n, _ => Scanning)),
              seq(n, i => TokenHolder(i == 0, [0, 0], true, false, false)), seq(n, _ => Outside), false);
  }

  // ----- refinement of the two-wave protocol

  ghost predicate Reached(t: Tree, visited: set<nat>, i: nat)
    requires i < |t.nodes|
  {
    t.nodes[i].hasToken || i in visited
  }

  /** Thread p has still to signal its child at offset o. */
  ghost predicate YetToSignal(t: Tree, p: nat, o: nat)
    requires p < |t.stage|
  {
    t.stage[p].Signal? && t.stage[p].c <= o
  }

  ghost function UpFrom(t: Tree, i: nat): int
    requires TreeShape(t) && 0 < i < |t.nodes|
  {
    t.nodes[BinaryParent(i)].upToken[BinarySlot(i)]
  }

  /** How far the wave is at thread i > 0, as seen from its parent. */
  ghost predicate LinkLaws(t: Tree, visited: set<nat>, i: nat)
    requires TreeShape(t) && 0 < i < |t.nodes|
  {
    var p := BinaryParent(i);
    && !(t.nodes[i].downToken && Reached(t, visited, i)) && !(t.nodes[i].hasToken && i in visited)
    && (t.nodes[i].downToken || Reached(t, visited, i)
        <==> Reached(t, visited, p) && !YetToSignal(t, p, BinarySlot(i)))
    && (Reached(t, visited, p) && !YetToSignal(t, p, BinarySlot(i)) ==> (UpFrom(t, i) == -1 <==> i !in visited))
    && (i in visited ==> UpFrom(t, i) == 0 || UpFrom(t, i) == 1)
    && (p in visited ==> i in visited)
    && (t.stage[i].Signal? ==> t.nodes[i].hasToken)
  }

  ghost predicate RootLaws(t: Tree, visited: set<nat>)
    requires TreeShape(t)
  {
    && 0 !in visited && (t.nodes[0].downToken <==> !t.nodes[0].hasToken)
    && (t.stage[0].Signal? ==> t.nodes[0].hasToken)
  }

  ghost predicate NoToken(t: Tree)
    requires TreeShape(t)
  {
    forall i: nat | i < |t.nodes| :: !t.nodes[i].hasToken && !t.nodes[i].downToken && !t.stage[i].Signal?
  }

  /** A black token on its way up that its receiver has not sent on yet. */
  ghost predicate CarriesTaint(t: Tree, visited: set<nat>, i: nat)
    requires TreeShape(t)
  {
    0 < i < |t.nodes| && i in visited && UpFrom(t, i) == 1 && BinaryParent(i) !in visited
  }

  ghost predicate TaintLaws(t: Tree, visited: set<nat>, tainted: bool)
    requires TreeShape(t)
  {
    if tainted then exists i: nat :: CarriesTaint(t, visited, i)
    else forall i: nat | 0 < i < |t.nodes| && i in visited :: UpFrom(t, i) == 0
  }

  ghost predicate InWave(t: Tree, w: Wave)
    requires TreeShape(t)
  {
    && RootLaws(t, w.visited)
    && (forall i: nat | 0 < i < |t.nodes| :: LinkLaws(t, w.visited, i))
    && TaintLaws(t, w.visited, w.tainted)
  }

  ghost predicate Represents(t: Tree, w: Wave) {
    && TreeShape(t)
    && w.pool == t.pool && |w.black| == |t.nodes| && w.done == t.globalTerm && w.lastWasWhite == t.nodes[0].lastWasWhite
    && (forall i: nat | i < |t.nodes| :: w.black[i] == t.nodes[i].processIsBlack)
    && (forall i | i in w.visited :: 0 < i < |t.nodes|)
    && if w.done then NoToken(t) else InWave(t, w)
  }

  lemma InitialRepresents(t: Tree) returns (w: Wave)
    requires Initial(t)
    ensures Represents(t, w) && Start(w)
  {
    w := Wave(t.pool, seq(|t.nodes|, _ => true), {}, false, false, false);
    forall i: nat | 0 < i < |t.nodes| ensures LinkLaws(t, {}, i) {}
  }

  lemma TaintKept(t: Tree, t': Tree, visited: set<nat>, tainted: bool)
    requires TreeShape(t) && TreeShape(t') && |t'.nodes| == |t.nodes| && TaintLaws(t, visited, tainted)
    requires forall x: nat | 0 < x < |t.nodes| && x in visited :: UpFrom(t', x) == UpFrom(t, x)
    ensures TaintLaws(t', visited, tainted)
  {
    if tainted {
      var x: nat :| CarriesTaint(t, visited, x);
      assert CarriesTaint(t', visited, x);
    }
  }

  lemma WorkRefines(t: Tree, t': Tree, w: Wave, i: nat) returns (w': Wave)
    requires Represents(t, w) && Work(t, t', i)
    ensures TreeShape(t') && WaveStep(w, w') && Represents(t', w') && w' == w.(pool := t'.pool)
  {
    w' := w.(pool := t'.pool);
    assert PoolStep(w.pool, w'.pool, i);
    if !w.done {
      forall x: nat | 0 < x < |t.nodes| ensures LinkLaws(t', w.visited, x) { assert LinkLaws(t, w.visited, x); }
      TaintKept(t, t', w.visited, w.tainted);
    }
  }

  /** A call without a complete token only reports. */
  lemma ReportRefines(t: Tree, t': Tree, w: Wave, i: nat) returns (w': Wave)
    requires Represents(t, w) && Enter(t, t', i) && !HaveAll(t, i)
    ensures Report(w, w', i) && Represents(t', w')
  {
    w' := w.(black := w.black[i := Dirty(w, i)], pool := t'.pool);
    assert Report(w, w', i);
    if !w.done {
      forall x: nat | 0 < x < |t.nodes| ensures LinkLaws(t', w.visited, x) { assert LinkLaws(t, w.visited, x); }
      TaintKept(t, t', w.visited, w.tainted);
    }
  }

  lemma LookDownRefines(t: Tree, t': Tree, w: Wave, i: nat)
    requires Represents(t, w) && LookDown(t, t', i)
    ensures Represents(t', w)
  {
    if !w.done {
      if i > 0 { assert LinkLaws(t, w.visited, i); }
      forall x: nat | 0 < x < |t.nodes| ensures LinkLaws(t', w.visited, x) { assert LinkLaws(t, w.visited, x); }
      TaintKept(t, t', w.visited, w.tainted);
    }
  }

  lemma SignalEffect(t: Tree, t': Tree, i: nat)
    requires SignalChild(t, t', i)
    ensures TreeShape(t') && |t'.nodes| == |t.nodes|
    ensures var c := t.stage[i].c;
            forall y: nat | y < |t.nodes| ::
              && t'.nodes[y].hasToken == t.nodes[y].hasToken
              && t'.nodes[y].downToken == (t.nodes[y].downToken || y == BinaryChild(i, c))
              && t'.stage[y] == (if y != i then t.stage[y] else if c == 0 then Signal(1) else Outside)
    ensures var c := t.stage[i].c;
            forall y: nat, o: nat | y < |t.nodes| && o < 2 ::
              t'.nodes[y].upToken[o] == if y == i && o == c then -1 else t.nodes[y].upToken[o]
  {
    BinaryTies(i, t.stage[i].c);
  }

  lemma SignalKeepsChildLink(t: Tree, t': Tree, visited: set<nat>, i: nat, x: nat)
    requires SignalChild(t, t', i) && t.nodes[i].hasToken && 0 < x < |t.nodes| && LinkLaws(t, visited, x)
    requires BinaryParent(x) == i
    ensures TreeShape(t') && LinkLaws(t', visited, x)
    ensures x in visited ==> UpFrom(t', x) == UpFrom(t, x)
  {
    hide AfterSignal, BinaryParent, BinarySlot, BinaryChild;
    SignalEffect(t, t', i);
    BinaryTies(i, t.stage[i].c);
    BinaryTies(x, 0);
  }

  lemma SignalKeepsOtherLink(t: Tree, t': Tree, visited: set<nat>, i: nat, x: nat)
    requires SignalChild(t, t', i) && t.nodes[i].hasToken && 0 < x < |t.nodes| && LinkLaws(t, visited, x)
    requires BinaryParent(x) != i
    ensures TreeShape(t') && LinkLaws(t', visited, x) && UpFrom(t', x) == UpFrom(t, x)
  {
    hide AfterSignal, BinaryParent, BinarySlot, BinaryChild;
    SignalEffect(t, t', i);
    BinaryTies(i, t.stage[i].c);
    BinaryTies(x, 0);
  }

  lemma SignalKeepsLinks(t: Tree, t': Tree, w: Wave, i: nat)
    requires Represents(t, w) && SignalChild(t, t', i) && !w.done
    ensures TreeShape(t') && forall x: nat | 0 < x < |t.nodes| :: LinkLaws(t', w.visited, x)
    ensures forall x: nat | 0 < x < |t.nodes| && x in w.visited :: UpFrom(t', x) == UpFrom(t, x)
  {
    assert t.nodes[i].hasToken by { if i > 0 { assert LinkLaws(t, w.visited, i); } }
    hide TaintLaws, LinkLaws, SignalChild;
    forall x: nat | 0 < x < |t.nodes|
      ensures TreeShape(t') && LinkLaws(t', w.visited, x) && (x in w.visited ==> UpFrom(t', x) == UpFrom(t, x))
    {
      if BinaryParent(x) == i {
        SignalKeepsChildLink(t, t', w.visited, i, x);
      } else {
        SignalKeepsOtherLink(t, t', w.visited, i, x);
      }
    }
    SignalKeepsShape(t, t', i);
  }

  lemma SignalKeepsShape(t: Tree, t': Tree, i: nat)
    requires SignalChild(t, t', i)
    ensures TreeShape(t')
  {
  }

  lemma SignalRefines(t: Tree, t': Tree, w: Wave, i: nat)
    requires Represents(t, w) && SignalChild(t, t', i)
    ensures Represents(t', w)
  {
    if !w.done {
      SignalKeepsLinks(t, t', w, i);
      hide LinkLaws;
      if i > 0 { BinaryTies(i, 0); }
      TaintKept(t, t', w.visited, w.tainted);
    }
  }

  ghost function AfterVisit(t: Tree, w: Wave, i: nat): Wave
    requires i < |w.black| && i < |w.pool.phase|
  {
    w.(black := w.black[i := false], pool := w.pool.(phase := w.pool.phase[i := Scanning]),
       visited := w.visited + {i}, tainted := w.tainted || Dirty(w, i))
  }

  lemma SendUpKeepsLinks(t: Tree, t': Tree, w: Wave, i: nat)
    requires Represents(t, w) && Enter(t, t', i) && HaveAll(t, i) && i != 0
    ensures !w.done && TreeShape(t') && forall x: nat | 0 < x < |t.nodes| :: LinkLaws(t', w.visited + {i}, x)
    ensures forall x: nat | 0 < x < |t.nodes| && x != i :: UpFrom(t', x) == UpFrom(t, x)
    ensures UpFrom(t', i) == if Black(t, i) then 1 else 0
    ensures i !in w.visited && BinaryParent(i) !in w.visited
  {
    hide TaintLaws, Black;
    assert LinkLaws(t, w.visited, i);
    forall x: nat | 0 < x < |t.nodes|
      ensures LinkLaws(t', w.visited + {i}, x) && (x != i ==> UpFrom(t', x) == UpFrom(t, x))
    {
      BinaryTies(x, 0);
      BinaryTies(i, 0);
      assert LinkLaws(t, w.visited, x);
      if BinaryParent(x) == i { assert HasChild(t, i, BinarySlot(x)); }
    }
  }

  lemma SendUpKeepsTaint(t: Tree, t': Tree, w: Wave, i: nat)
    requires Represents(t, w) && Enter(t, t', i) && HaveAll(t, i) && i != 0
    requires !w.done && TreeShape(t') && i !in w.visited && BinaryParent(i) !in w.visited
    requires forall x: nat | 0 < x < |t.nodes| && x != i :: UpFrom(t', x) == UpFrom(t, x)
    requires UpFrom(t', i) == if Black(t, i) then 1 else 0
    ensures TaintLaws(t', w.visited + {i}, w.tainted || Dirty(w, i))
  {
    if Black(t, i) {
      assert CarriesTaint(t', w.visited + {i}, i);
    }
    if w.tainted {
      var x: nat :| CarriesTaint(t, w.visited, x);
      BinaryTies(x, 0);
      if BinaryParent(x) == i { assert HasChild(t, i, BinarySlot(x)); }
      assert Black(t, i) || CarriesTaint(t', w.visited + {i}, x);
    } else {
      forall c: nat | HasChild(t, i, c) && t.nodes[i].upToken[c] != -1 ensures t.nodes[i].upToken[c] == 0 {
        BinaryTies(i, c);
        assert LinkLaws(t, w.visited, BinaryChild(i, c));
        assert UpFrom(t, BinaryChild(i, c)) == 0;
      }
    }
  }

  /** A thread other than the master that has its children's tokens is visited by the wave. */
  lemma SendUpRefines(t: Tree, t': Tree, w: Wave, i: nat) returns (w': Wave)
    requires Represents(t, w) && Enter(t, t', i) && HaveAll(t, i) && i != 0
    ensures Visit(w, w', i) && Represents(t', w')
  {
    SendUpKeepsLinks(t, t', w, i);
    SendUpKeepsTaint(t, t', w, i);
    hide LinkLaws, TaintLaws, Black;
    w' := AfterVisit(t, w, i);
  }

  /** With all its children's tokens the master knows that the wave has visited everyone. */
  lemma AllVisited(t: Tree, w: Wave)
    requires Represents(t, w) && !w.done && HaveAll(t, 0) && t.stage[0] == Outside
    ensures forall x: nat | 0 < x < |t.nodes| :: x in w.visited
  {
    forall x: nat | 0 < x < |t.nodes| ensures x in w.visited { IsVisited(t, w, x); }
  }

  lemma {:induction false} IsVisited(t: Tree, w: Wave, x: nat)
    requires Represents(t, w) && !w.done && HaveAll(t, 0) && t.stage[0] == Outside && 0 < x < |t.nodes|
    ensures x in w.visited
  {
    assert LinkLaws(t, w.visited, x);
    BinaryTies(x, 0);
    if BinaryParent(x) == 0 {
      assert HasChild(t, 0, BinarySlot(x));
    } else {
      IsVisited(t, w, BinaryParent(x));
    }
  }

  lemma CloseRefines(t: Tree, t': Tree, w: Wave) returns (w': Wave)
    requires Represents(t, w) && Enter(t, t', 0) && HaveAll(t, 0)
    ensures Close(w, w') && Represents(t', w')
  {
    assert !w.done;
    AllVisited(t, w);
    var failed := w.tainted || Dirty(w, 0);
    assert failed == Black(t, 0) by {
      if w.tainted {
        var x: nat :| CarriesTaint(t, w.visited, x);
        assert BinaryParent(x) == 0;
        BinaryTies(x, 0);
        assert HasChild(t, 0, BinarySlot(x));
      } else {
        forall c: nat | HasChild(t, 0, c) ensures t.nodes[0].upToken[c] == 0 {
          BinaryTies(0, c);
          assert UpFrom(t, BinaryChild(0, c)) == 0;
        }
      }
    }
    var w1 := w.(black := w.black[0 := false], pool := t'.pool);
    forall x: nat | 0 < x < |t.nodes| ensures !t'.nodes[x].hasToken && !t'.nodes[x].downToken && !t'.stage[x].Signal? {
      assert LinkLaws(t, w.visited, x);
    }
    if w.lastWasWhite && !failed {
      w' := w1.(done := true);
    } else {
      w' := w1.(lastWasWhite := !failed, visited := {}, tainted := false);
      forall x: nat | 0 < x < |t.nodes| ensures LinkLaws(t', {}, x) {}
    }
  }

  /** Every step of the tree is a step of the two-wave protocol, or none at all. */
  lemma TreeRefines(t: Tree, t': Tree, w: Wave) returns (w': Wave)
    requires Represents(t, w) && TreeStep(t, t')
    ensures WaveStep(w, w') && Represents(t', w')
  {
    hide Represents, Visit, Report, Close, LookDown, SignalChild, Work;
    w' := w;
    if i: nat :| LookDown(t, t', i) {
      LookDownRefines(t, t', w, i);
    } else if i: nat :| SignalChild(t, t', i) {
      SignalRefines(t, t', w, i);
    } else if i: nat :| Work(t, t', i) {
      w' := WorkRefines(t, t', w, i);
    } else {
      var i: nat :| Enter(t, t', i);
      w' := EnterRefines(t, t', w, i);
    }
  }

  lemma EnterRefines(t: Tree, t': Tree, w: Wave, i: nat) returns (w': Wave)
    requires Represents(t, w) && Enter(t, t', i)
    ensures WaveStep(w, w') && Represents(t', w')
  {
    hide Represents, Visit, Report, Close;
    if !HaveAll(t, i) {
      w' := ReportRefines(t, t', w, i);
    } else if i != 0 {
      w' := SendUpRefines(t, t', w, i);
    } else {
      w' := CloseRefines(t, t', w);
    }
  }

  // ----- runs

  ghost predicate Run(t: seq<Tree>) {
    |t| > 0 && Initial(t[0]) && forall k: nat | k + 1 < |t| :: TreeStep(t[k], t[k + 1])
  }

  lemma {:induction false} Follow(t: seq<Tree>, k: nat) returns (w: Wave)
    requires Run(t) && k < |t|
    ensures Represents(t[k], w) && WaveLaws(w) && |t[k].nodes| == |t[0].nodes|
  {
    if k == 0 {
      w := InitialRepresents(t[0]);
      StartKeepsLaws(w);
    } else {
      var w0 := Follow(t, k - 1);
      assert TreeStep(t[k - 1], t[k - 1 + 1]);
      hide TreeStep, WaveStep, WaveLaws, InWave;
      w := TreeRefines(t[k - 1], t[k], w0);
      StepKeepsLaws(w0, w);
      StepKeepsSize(w0, w);
    }
  }

  lemma StepKeepsSize(w: Wave, w': Wave)
    requires WaveStep(w, w')
    ensures |w'.black| == |w.black| && (w.done ==> w'.done)
  {
  }

  /** globalTerm is set only when no item is queued anywhere and no thread holds one, and that stays
      so: no later call reports work, and no token is under way. */
  lemma {:induction false} TerminationIsSafe(t: seq<Tree>, k: nat, later: nat)
    requires Run(t) && k <= later < |t| && t[k].globalTerm
    ensures t[later].globalTerm && TreeShape(t[later]) && NoWork(t[later].pool) && NoToken(t[later])
  {
    var w := Follow(t, later);
    if later > k {
      TerminationIsSafe(t, k, later - 1);
      assert TreeStep(t[later - 1], t[later - 1 + 1]);
    }
  }

  // ----- the code

  /** The rest of a call, once its first part has looked at the tokens from below. */
  ghost function PassedDown(t: Tree, i: nat): (t': Tree)
    requires TreeShape(t) && i < |t.nodes| && t.stage[i] == CheckDown
    ensures TreeShape(t') && |t'.nodes| == |t.nodes| && t'.stage[i] == Outside
  {
    var checked := AfterCheckDown(t, i);
    if t.nodes[i].downToken then AfterSignal(AfterSignal(checked, i), i) else checked
  }

  /** What an uninterrupted call of thread i amounts to. */
  ghost function FullCall(t: Tree, i: nat): (t': Tree)
    requires TreeShape(t) && i < |t.nodes| && t.stage[i] == Outside
    ensures TreeShape(t') && |t'.nodes| == |t.nodes| && t'.stage[i] == Outside
  {
    var entered := AfterEnter(t, i);
    if entered.stage[i] == Outside then entered else PassedDown(entered, i)
  }

  lemma PassedDownIsTreeSteps(t: Tree, i: nat) returns (p: seq<Tree>)
    requires TreeShape(t) && i < |t.nodes| && t.stage[i] == CheckDown
    ensures 1 < |p| <= 4 && p[0] == t && p[|p| - 1] == PassedDown(t, i)
    ensures forall k: nat | k + 1 < |p| :: LookDown(p[k], p[k + 1], i) || SignalChild(p[k], p[k + 1], i)
  {
    var checked := AfterCheckDown(t, i);
    if t.nodes[i].downToken {
      var signalled := AfterSignal(checked, i);
      p := [t, checked, signalled, AfterSignal(signalled, i)];
    } else {
      p := [t, checked];
    }
  }

  /** It is a sequence of at most four steps of that thread, which leaves the call again. */
  lemma FullCallIsTreeSteps(t: Tree, i: nat) returns (p: seq<Tree>)
    requires TreeShape(t) && i < |t.nodes| && t.stage[i] == Outside && ReadyToReport(t.pool, i)
    ensures 1 < |p| <= 5 && p[0] == t && p[|p| - 1] == FullCall(t, i)
    ensures Enter(t, p[1], i)
    ensures forall k: nat | 0 < k && k + 1 < |p| :: LookDown(p[k], p[k + 1], i) || SignalChild(p[k], p[k + 1], i)
  {
    var entered := AfterEnter(t, i);
    p := [t, entered];
    if entered.stage[i] != Outside {
      p := PassedDownIsTreeSteps(entered, i);
      p := [t] + p;
    }
  }

  class TreeTerminationDetection {
    var data: seq<TokenHolder>
    var globalTerm: bool

    method InitializeThread(id: nat)
      requires id < |data|
      modifies this
      ensures data == old(data)[id := TokenHolder(id == 0, [0, 0], true, false, false)] && !globalTerm
    {
      data := data[id := TokenHolder(false, [0, 0], true, false, false)];
      globalTerm := false;
      if id == 0 {
        data := data[id := data[id].(downToken := true)];
      }
    }

    method LocalTermination(id: nat, workHappened: bool, ghost t: Tree)
      requires data == t.nodes && TreeShape(t) && id < |data| && t.stage[id] == Outside
      requires globalTerm == t.globalTerm && workHappened == (t.pool.phase[id] == Working)
      modifies this
      ensures data == FullCall(t, id).nodes && globalTerm == FullCall(t, id).globalTerm
    {
      data := data[id := data[id].(processIsBlack := data[id].processIsBlack || workHappened)];
      ProcessToken(id, t);
    }

    method ProcessToken(id: nat, ghost t: Tree)
      requires TreeShape(t) && id < |t.nodes| && t.stage[id] == Outside && globalTerm == t.globalTerm
      requires data == t.nodes[id := t.nodes[id].(processIsBlack := t.nodes[id].processIsBlack || t.pool.phase[id] == Working)]
      modifies this
      ensures data == FullCall(t, id).nodes && globalTerm == FullCall(t, id).globalTerm
    {
      var haveAll, black := LookBelow(id, t);
      var closed := SendTokens(id, haveAll, black, t);
      hide AfterEnter;
      if !closed {
        PassDown(id, AfterEnter(t, id));
      }
    }

    method SendTokens(id: nat, haveAll: bool, black: bool, ghost t: Tree) returns (closed: bool)
      requires TreeShape(t) && id < |t.nodes| && t.stage[id] == Outside && globalTerm == t.globalTerm
      requires data == t.nodes[id := t.nodes[id].(processIsBlack := t.nodes[id].processIsBlack || t.pool.phase[id] == Working)]
      requires haveAll == HaveAll(t, id) && black == Black(t, id)
      modifies this
      ensures data == AfterEnter(t, id).nodes && globalTerm == AfterEnter(t, id).globalTerm
      ensures closed == (AfterEnter(t, id).stage[id] == Outside)
      ensures |data| == |old(data)| && (!haveAll ==> data == old(data) && globalTerm == old(globalTerm) && !closed)
      ensures haveAll && id > 0 ==>
                var p := (id - 1) / 2;
                && data[id] == old(data)[id].(processIsBlack := false, hasToken := false)
                && |old(data)[p].upToken| == 2
                && data[p] == old(data)[p].(upToken := old(data)[p].upToken[(id - 1) % 2 := if black then 1 else 0])
                && (forall j: nat | j < |data| && j != id && j != p :: data[j] == old(data)[j])
                && globalTerm == old(globalTerm) && !closed
      ensures haveAll && id == 0 ==>
                && closed == (old(data)[0].lastWasWhite && !black) && globalTerm == (old(globalTerm) || closed)
                && data[0] == (if closed then old(data)[0].(processIsBlack := false, hasToken := false)
                               else old(data)[0].(processIsBlack := false, hasToken := false, downToken := true, lastWasWhite := !black))
                && forall j: nat | 0 < j < |data| :: data[j] == old(data)[j]
    {
      hide HaveAll, Black;
      closed := false;
      if haveAll {
        var th := data[id].(processIsBlack := false, hasToken := false);
        data := data[id := th];
        if id == 0 {
          if th.lastWasWhite && !black {
            globalTerm := true;
            return true;
          }
          th := th.(lastWasWhite := !black, downToken := true);
          data := data[id := th];
        } else {
          var p := (id - 1) / 2;
          data := data[p := data[p].(upToken := data[p].upToken[(id - 1) % 2 := if black then 1 else 0])];
        }
      }
    }

    /** Are the tokens from below all here, and is any of them, or the thread itself, black? */
    method LookBelow(id: nat, ghost t: Tree) returns (haveAll: bool, black: bool)
      requires TreeShape(t) && id < |t.nodes|
      requires data == t.nodes[id := t.nodes[id].(processIsBlack := t.nodes[id].processIsBlack || t.pool.phase[id] == Working)]
      ensures haveAll == HaveAll(t, id) && black == Black(t, id)
      ensures haveAll == (data[id].hasToken && forall c: nat | c < 2 && 2 * id + c + 1 < |data| :: data[id].upToken[c] != -1)
      ensures black == (data[id].processIsBlack ||
                        exists c: nat :: c < 2 && 2 * id + c + 1 < |data| && data[id].upToken[c] != -1 && data[id].upToken[c] != 0)
    {
      var th := data[id];
      haveAll, black := th.hasToken, th.processIsBlack;
      var i := 0;
      while i < 2
        invariant 0 <= i <= 2
        invariant haveAll == (th.hasToken && forall c: nat | c < i && HasChild(t, id, c) :: th.upToken[c] != -1)
        invariant black == (th.processIsBlack ||
                            exists c: nat :: c < i && HasChild(t, id, c) && th.upToken[c] != -1 && th.upToken[c] != 0)
      {
        if 2 * id + i + 1 < |data| {
          assert HasChild(t, id, i);
          if th.upToken[i] == -1 {
            haveAll := false;
          } else {
            black := black || th.upToken[i] != 0;
          }
        }
        i := i + 1;
      }
    }

    method PassDown(id: nat, ghost t: Tree)
      requires TreeShape(t) && id < |t.nodes| && t.stage[id] == CheckDown && data == t.nodes
      modifies `data
      ensures data == PassedDown(t, id).nodes
      ensures |data| == |old(data)| && (!old(data)[id].downToken ==> data == old(data))
      ensures old(data)[id].downToken ==>
                && data[id] == old(data)[id].(downToken := false, hasToken := true, upToken := [-1, -1])
                && forall j: nat | j < |data| && j != id ::
                     data[j] == if j == 2 * id + 1 || j == 2 * id + 2 then old(data)[j].(downToken := true) else old(data)[j]
    {
      hide AfterSignal;
      if data[id].downToken {
        data := data[id := data[id].(downToken := false, hasToken := true)];
        ghost var checked := AfterCheckDown(t, id);
        ghost var once := AfterSignal(checked, id);
        SignalKeepsShape(checked, once, id);
        SignalWrites(checked, id);
        ghost var s := checked;
        var i := 0;
        while i < 2
          invariant 0 <= i <= 2 && |data| == |old(data)| && |data[id].upToken| == 2
          invariant TreeShape(s) && data == s.nodes && (i < 2 ==> s.stage[id] == Signal(i))
          invariant i == 0 ==> s == checked
          invariant i == 1 ==> s == once
          invariant i == 2 ==> s == AfterSignal(once, id)
          invariant data[id] == old(data)[id].(downToken := false, hasToken := true, upToken := data[id].upToken)
          invariant forall c: nat | c < i :: data[id].upToken[c] == -1
          invariant forall j: nat | j < |data| && j != id ::
                      data[j] == if 2 * id < j <= 2 * id + i then old(data)[j].(downToken := true) else old(data)[j]
        {
          hide AfterSignal;
          ResetAndSignal(id, i, s);
          ghost var next := AfterSignal(s, id);
          SignalKeepsShape(s, next, id);
          SignalWrites(s, id);
          s := next;
          i := i + 1;
        }
        assert data[id].upToken == [-1, -1];
      }
    }

    /** One turn of the loop over the children. */
    method ResetAndSignal(id: nat, i: nat, ghost s: Tree)
      requires TreeShape(s) && id < |s.nodes| && s.stage[id] == Signal(i) && data == s.nodes
      modifies `data
      ensures data == AfterSignal(s, id).nodes && |data| == |old(data)| && |old(data)[id].upToken| == 2
      ensures i < 2 && data[id] == old(data)[id].(upToken := old(data)[id].upToken[i := -1])
      ensures forall j: nat | j < |data| && j != id ::
                data[j] == if j == 2 * id + i + 1 then old(data)[j].(downToken := true) else old(data)[j]
    {
      data := data[id := data[id].(upToken := data[id].upToken[i := -1])];
      var j := 2 * id + i + 1;
      if j < |data| {
        data := data[j := data[j].(downToken := true)];
      }
    }
  }
}
