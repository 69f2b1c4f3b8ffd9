/** The MCS tree barrier. Threads report arrival up a tree of fan-in four and are woken down a tree of
    fan-out two; flags are reused from one episode to the next by sense reversal and re-arming. A wait
    is split at every access to a shared flag, so that a step of the barrier is one such access by
    some thread. */
module McsBarrier {
  import opened Sums
  import opened Trees

  datatype TreeNode = TreeNode(childNotReady: seq<bool>, parentSense: bool, sense: bool)

  /** Where a thread is in wait: looking at flag j of its children, re-arming flag j, about to report
      to its parent, waiting to be woken, or about to wake child c. */
  datatype Stage = Outside | Gather(j: nat) | Rearm(j: nat) | Report | AwaitParent | Wake(c: nat)

  /** done[i] counts the waits that thread i has left. */
  datatype State = State(nodes: seq<TreeNode>, stage: seq<Stage>, done: seq<nat>)

  function HaveChild(P: nat, i: nat, j: nat): bool { QuadChild(i, j) < P }

  lemma HaveChildTies(P: nat, x: nat)
    requires 0 < x < P
    ensures HaveChild(P, QuadParent(x), QuadSlot(x))
  {
  }

  predicate Shape(s: State) {
    && |s.nodes| == |s.stage| == |s.done|
    && (forall i: nat | i < |s.nodes| :: |s.nodes[i].childNotReady| == 4)
    && (forall i: nat | i < |s.nodes| && s.stage[i].Gather? :: s.stage[i].j < 4)
    && (forall i: nat | i < |s.nodes| && s.stage[i].Rearm? :: s.stage[i].j < 4)
    && (forall i: nat | i < |s.nodes| && s.stage[i].Wake? :: s.stage[i].c < 2)
    && (|s.nodes| > 0 ==> s.stage[0] != Report && s.stage[0] != AwaitParent)
  }

  function FreshNode(P: nat, i: nat): TreeNode {
    TreeNode([HaveChild(P, i, 0), HaveChild(P, i, 1), HaveChild(P, i, 2), HaveChild(P, i, 3)], false, true)
  }

  ghost predicate Initial(s: State) {
    && Shape(s)
    && forall i: nat | i < |s.nodes| ::
         s.nodes[i] == FreshNode(|s.nodes|, i) && s.stage[i] == Outside && s.done[i] == 0
  }

  // ----- the next access of thread i

  function MoveTo(s: State, i: nat, stage: Stage): State
    requires i < |s.stage|
  {
    s.(stage := s.stage[i := stage])
  }

  function AfterGather(s: State, i: nat): State
    requires Shape(s) && i < |s.nodes| && s.stage[i].Gather?
  {
    var j := s.stage[i].j;
    if s.nodes[i].childNotReady[j] then MoveTo(s, i, Gather(0))
    else if j < 3 then MoveTo(s, i, Gather(j + 1))
    else MoveTo(s, i, Rearm(0))
  }

  function AfterRearm(s: State, i: nat): State
    requires Shape(s) && i < |s.nodes| && s.stage[i].Rearm?
  {
    var j, n := s.stage[i].j, s.nodes[i];
    var s := s.(nodes := s.nodes[i := n.(childNotReady := n.childNotReady[j := HaveChild(|s.nodes|, i, j)])]);
    if j < 3 then MoveTo(s, i, Rearm(j + 1))
    else if i == 0 then MoveTo(s, i, Wake(0))
    else MoveTo(s, i, Report)
  }

  function AfterReport(s: State, i: nat): State
    requires Shape(s) && 0 < i < |s.nodes|
  {
    var p := QuadParent(i);
    var flags := s.nodes[p].childNotReady[QuadSlot(i) := false];
    MoveTo(s.(nodes := s.nodes[p := s.nodes[p].(childNotReady := flags)]), i, AwaitParent)
  }

  function AfterAwait(s: State, i: nat): State
    requires Shape(s) && i < |s.nodes|
  {
    if s.nodes[i].parentSense != s.nodes[i].sense then s else MoveTo(s, i, Wake(0))
  }

  /** The last wake-up also flips the thread's own sense, which no other thread reads, and ends the wait. */
  function AfterWake(s: State, i: nat): State
    requires Shape(s) && i < |s.nodes| && s.stage[i].Wake?
  {
    var c := s.stage[i].c;
    var k := BinaryChild(i, c);
    var nodes := if k < |s.nodes| then s.nodes[k := s.nodes[k].(parentSense := s.nodes[i].sense)] else s.nodes;
    if c == 0 then State(nodes, s.stage[i := Wake(1)], s.done)
    else State(nodes[i := nodes[i].(sense := !nodes[i].sense)], s.stage[i := Outside], s.done[i := s.done[i] + 1])
  }

  function After(s: State, i: nat): State
    requires Shape(s) && i < |s.nodes|
  {
    match s.stage[i]
    case Outside => MoveTo(s, i, Gather(0))
    case Gather(_) => AfterGather(s, i)
    case Rearm(_) => AfterRearm(s, i)
    case Report => AfterReport(s, i)
    case AwaitParent => AfterAwait(s, i)
    case Wake(_) => AfterWake(s, i)
  }

  /** What an access writes, flag by flag, and where the thread is afterwards. */
  lemma AccessWrites(s: State, i: nat)
    requires Shape(s) && i < |s.nodes|
    ensures |After(s, i).nodes| == |s.nodes|
    ensures forall y: nat | y < |s.nodes| ::
              && After(s, i).nodes[y].parentSense == (if s.stage[i].Wake? && y == 2 * i + s.stage[i].c + 1 then s.nodes[i].sense else s.nodes[y].parentSense)
              && After(s, i).nodes[y].sense == if s.stage[i] == Wake(1) && y == i then !s.nodes[y].sense else s.nodes[y].sense
    ensures forall y: nat | y < |s.nodes| :: |After(s, i).nodes[y].childNotReady| == 4
    ensures forall y: nat, j: nat | y < |s.nodes| && j < 4 ::
              After(s, i).nodes[y].childNotReady[j] ==
                if s.stage[i] == Rearm(j) && y == i then 4 * i + j + 1 < |s.nodes|
                else if s.stage[i] == Report && y == (i - 1) / 4 && j == (i - 1) % 4 then false
                else s.nodes[y].childNotReady[j]
    ensures After(s, i).stage == s.stage[i :=
              match s.stage[i]
              case Outside => Gather(0)
              case Gather(j) => if s.nodes[i].childNotReady[j] then Gather(0) else if j < 3 then Gather(j + 1) else Rearm(0)
              case Rearm(j) => if j < 3 then Rearm(j + 1) else if i == 0 then Wake(0) else Report
              case Report => AwaitParent
              case AwaitParent => if s.nodes[i].parentSense == s.nodes[i].sense then Wake(0) else AwaitParent
              case Wake(c) => if c == 0 then Wake(1) else Outside]
    ensures After(s, i).done == if s.stage[i] == Wake(1) then s.done[i := s.done[i] + 1] else s.done
  {
    AccessWritesFlags(s, i);
    AccessWritesSenses(s, i);
  }

  lemma AccessWritesSenses(s: State, i: nat)
    requires Shape(s) && i < |s.nodes|
    ensures |After(s, i).nodes| == |s.nodes|
    ensures forall y: nat | y < |s.nodes| ::
              && After(s, i).nodes[y].parentSense ==
                   (if s.stage[i].Wake? && y == 2 * i + s.stage[i].c + 1 then s.nodes[i].sense else s.nodes[y].parentSense)
              && After(s, i).nodes[y].sense == if s.stage[i] == Wake(1) && y == i then !s.nodes[y].sense else s.nodes[y].sense
  {
    hide HaveChild, QuadParent, QuadSlot;
    if s.stage[i] == Report { QuadTies(i, 0); }
  }

  lemma AccessWritesFlags(s: State, i: nat)
    requires Shape(s) && i < |s.nodes|
    ensures |After(s, i).nodes| == |s.nodes|
    ensures forall y: nat | y < |s.nodes| :: |After(s, i).nodes[y].childNotReady| == 4
    ensures forall y: nat, j: nat | y < |s.nodes| && j < 4 ::
              After(s, i).nodes[y].childNotReady[j] ==
                if s.stage[i] == Rearm(j) && y == i then 4 * i + j + 1 < |s.nodes|
                else if s.stage[i] == Report && y == (i - 1) / 4 && j == (i - 1) % 4 then false
                else s.nodes[y].childNotReady[j]
  {
    hide BinaryChild;
  }

  // ----- episode counts

  ghost predicate Odd(n: nat) { n % 2 == 1 }

  lemma OddAlternates(n: nat)
    ensures Odd(n + 1) == !Odd(n)
  {
  }

  /** How often thread i has entered wait; reported to its parent; re-armed flag j; and been woken. */
  ghost function Entered(s: State, i: nat): nat
    requires Shape(s) && i < |s.nodes|
  {
    s.done[i] + One(s.stage[i] != Outside)
  }

  ghost function Reported(s: State, i: nat): nat
    requires Shape(s) && i < |s.nodes|
  {
    s.done[i] + One(s.stage[i] == AwaitParent || s.stage[i].Wake?)
  }

  ghost function Rearmed(s: State, i: nat, j: nat): nat
    requires Shape(s) && i < |s.nodes|
  {
    var g := s.stage[i];
    s.done[i] + One((g.Rearm? && g.j > j) || g == Report || g == AwaitParent || g.Wake?)
  }

  ghost function Woken(s: State, i: nat): nat
    requires Shape(s) && 0 < i < |s.nodes|
  {
    var w := BinaryParent(i);
    s.done[w] + One(s.stage[w].Wake? && s.stage[w].c > BinarySlot(i))
  }

  /** How many episodes thread 0 has declared complete. */
  ghost function Released(s: State): nat
    requires Shape(s) && 0 < |s.nodes|
  {
    s.done[0] + One(s.stage[0].Wake?)
  }

  // ----- invariants

  ghost predicate OwnLaw(s: State, i: nat)
    requires Shape(s) && i < |s.nodes|
  {
    && s.nodes[i].sense == !Odd(s.done[i])
    && (forall j: nat | j < 4 && s.nodes[i].childNotReady[j] :: HaveChild(|s.nodes|, i, j))
    && (s.stage[i].Gather? ==> forall j: nat | j < s.stage[i].j :: !s.nodes[i].childNotReady[j])
    && (s.stage[i].Rearm? ==> forall j: nat | s.stage[i].j <= j < 4 :: !s.nodes[i].childNotReady[j])
  }

  /** Thread i > 0 is at most one report ahead of its parent's re-arming, and the flag tells whether. */
  ghost predicate ArrivalLaw(s: State, i: nat)
    requires Shape(s) && 0 < i < |s.nodes|
  {
    var p, j := QuadParent(i), QuadSlot(i);
    && Rearmed(s, p, j) <= Reported(s, i) <= Rearmed(s, p, j) + 1
    && s.nodes[p].childNotReady[j] == (Reported(s, i) == Rearmed(s, p, j))
  }

  /** Thread i > 0 is woken at most once ahead of its leaving, and the parity of parentSense tells whether. */
  ghost predicate WakeLaw(s: State, i: nat)
    requires Shape(s) && 0 < i < |s.nodes|
  {
    && s.done[i] <= Woken(s, i) <= s.done[i] + 1
    && s.nodes[i].parentSense == Odd(Woken(s, i))
    && (s.stage[i].Wake? ==> Woken(s, i) == s.done[i] + 1)
  }

  ghost predicate Laws(s: State) {
    && Shape(s)
    && (forall i: nat | i < |s.nodes| :: OwnLaw(s, i))
    && (forall i: nat | 0 < i < |s.nodes| :: ArrivalLaw(s, i))
    && (forall i: nat | 0 < i < |s.nodes| :: WakeLaw(s, i))
  }

  lemma InitialKeepsLaws(s: State)
    requires Initial(s)
    ensures Laws(s)
  {
    forall i: nat | 0 < i < |s.nodes| ensures ArrivalLaw(s, i) { QuadTies(i, 0); }
  }

  /** An episode that thread 0 has released has been reported by every thread, ... */
  lemma {:induction false} ReleasedIsReported(s: State, i: nat)
    requires Laws(s) && i < |s.nodes|
    ensures forall j: nat :: Rearmed(s, i, j) >= Released(s)
    ensures i > 0 ==> Reported(s, i) >= Released(s)
  {
    if i > 0 {
      ReleasedIsReported(s, QuadParent(i));
      assert ArrivalLaw(s, i);
    }
  }

  /** ... and nobody is woken for one that has not been released. */
  lemma {:induction false} WokenIsReleased(s: State, i: nat)
    requires Laws(s) && i < |s.nodes|
    ensures s.done[i] <= Released(s) && (i > 0 ==> Woken(s, i) <= Released(s))
    ensures s.stage[i].Wake? ==> s.done[i] + 1 <= Released(s)
  {
    if i > 0 {
      WokenIsReleased(s, BinaryParent(i));
      assert WakeLaw(s, i);
    }
  }

  // ----- every step keeps them

  lemma AfterKeepsShape(s: State, i: nat)
    requires Shape(s) && i < |s.nodes|
    ensures Shape(After(s, i)) && |After(s, i).nodes| == |s.nodes|
  {
    hide HaveChild, BinaryChild, QuadParent, QuadSlot, AfterRearm, AfterReport, AfterWake;
    match s.stage[i] {
      case Rearm(_) => RearmKeepsShape(s, i);
      case Report => ReportKeepsShape(s, i);
      case Wake(_) => WakeKeepsShape(s, i);
      case _ =>
    }
  }

  lemma RearmKeepsShape(s: State, i: nat)
    requires Shape(s) && i < |s.nodes| && s.stage[i].Rearm?
    ensures Shape(AfterRearm(s, i)) && |AfterRearm(s, i).nodes| == |s.nodes|
  {
    hide HaveChild;
  }

  lemma ReportKeepsShape(s: State, i: nat)
    requires Shape(s) && 0 < i < |s.nodes|
    ensures Shape(AfterReport(s, i)) && |AfterReport(s, i).nodes| == |s.nodes|
  {
    QuadTies(i, 0);
  }

  lemma WakeKeepsShape(s: State, i: nat)
    requires Shape(s) && i < |s.nodes| && s.stage[i].Wake?
    ensures Shape(AfterWake(s, i)) && |AfterWake(s, i).nodes| == |s.nodes|
  {
    hide BinaryChild;
  }

  /** Only re-arming and reporting touch the arrival flags and counts. */
  lemma ArrivalFrame(s: State, i: nat)
    requires Shape(s) && i < |s.nodes| && !s.stage[i].Rearm? && s.stage[i] != Report
    ensures Shape(After(s, i)) && |After(s, i).nodes| == |s.nodes|
    ensures forall x: nat | x < |s.nodes| ::
              After(s, i).nodes[x].childNotReady == s.nodes[x].childNotReady && Reported(After(s, i), x) == Reported(s, x)
    ensures forall x: nat, j: nat | x < |s.nodes| :: Rearmed(After(s, i), x, j) == Rearmed(s, x, j)
  {
    AfterKeepsShape(s, i);
    hide Shape;
  }

  /** Only wake-ups touch the wakeup flags and counts. */
  lemma WakeFrame(s: State, i: nat)
    requires Shape(s) && i < |s.nodes| && !s.stage[i].Wake?
    ensures Shape(After(s, i)) && |After(s, i).nodes| == |s.nodes| && After(s, i).done == s.done
    ensures forall x: nat | x < |s.nodes| ::
              After(s, i).nodes[x].parentSense == s.nodes[x].parentSense && After(s, i).nodes[x].sense == s.nodes[x].sense
    ensures forall x: nat | 0 < x < |s.nodes| :: Woken(After(s, i), x) == Woken(s, x)
  {
    AfterKeepsShape(s, i);
    hide Shape;
  }

  lemma GatherKeepsOwn(s: State, i: nat)
    requires Shape(s) && i < |s.nodes| && OwnLaw(s, i) && (s.stage[i] == Outside || s.stage[i].Gather?)
    ensures Shape(After(s, i)) && OwnLaw(After(s, i), i)
  {
    AfterKeepsShape(s, i);
  }

  lemma RearmKeepsOwn(s: State, i: nat)
    requires Shape(s) && i < |s.nodes| && OwnLaw(s, i) && s.stage[i].Rearm?
    ensures Shape(After(s, i)) && OwnLaw(After(s, i), i)
  {
    AfterKeepsShape(s, i);
    hide Shape;
  }

  lemma WakeKeepsOwn(s: State, i: nat)
    requires Shape(s) && i < |s.nodes| && OwnLaw(s, i) && s.stage[i].Wake?
    ensures Shape(After(s, i)) && OwnLaw(After(s, i), i)
  {
    AfterKeepsShape(s, i);
    OddAlternates(s.done[i]);
    hide Shape, Odd;
    assert After(s, i).nodes[i].childNotReady == s.nodes[i].childNotReady;
  }

  lemma OthersKeepOwn(s: State, i: nat, x: nat)
    requires Shape(s) && i < |s.nodes| && x < |s.nodes| && OwnLaw(s, x) && x != i
    ensures Shape(After(s, i)) && |After(s, i).nodes| == |s.nodes| && OwnLaw(After(s, i), x)
  {
    AfterKeepsShape(s, i);
    var s' := After(s, i);
    assert s'.stage[x] == s.stage[x] && s'.done[x] == s.done[x] && s'.nodes[x].sense == s.nodes[x].sense;
    assert forall j: nat | j < 4 && s'.nodes[x].childNotReady[j] :: s.nodes[x].childNotReady[j];
    hide After, Shape;
  }

  lemma StepKeepsOwn(s: State, i: nat, x: nat)
    requires Shape(s) && i < |s.nodes| && x < |s.nodes| && OwnLaw(s, x)
    ensures Shape(After(s, i)) && |After(s, i).nodes| == |s.nodes| && OwnLaw(After(s, i), x)
  {
    AfterKeepsShape(s, i);
    hide Shape, OwnLaw, AfterGather, AfterRearm, AfterWake;
    if x != i {
      OthersKeepOwn(s, i, x);
    } else {
      match s.stage[i]
      case Outside => GatherKeepsOwn(s, i);
      case Gather(_) => GatherKeepsOwn(s, i);
      case Rearm(_) => RearmKeepsOwn(s, i);
      case Report => ReportKeepsOwn(s, i);
      case AwaitParent => ReportKeepsOwn(s, i);
      case Wake(_) => WakeKeepsOwn(s, i);
    }
  }

  lemma ReportKeepsOwn(s: State, i: nat)
    requires Shape(s) && i < |s.nodes| && OwnLaw(s, i) && (s.stage[i] == Report || s.stage[i] == AwaitParent)
    ensures Shape(After(s, i)) && OwnLaw(After(s, i), i)
  {
    AfterKeepsShape(s, i);
    hide Shape;
  }

  lemma RearmEffect(s: State, i: nat)
    requires Shape(s) && i < |s.nodes| && s.stage[i].Rearm?
    ensures var s', j := After(s, i), s.stage[i].j;
            && Shape(s') && |s'.nodes| == |s.nodes| && s'.done == s.done
            && s'.stage == s.stage[i := if j < 3 then Rearm(j + 1) else if i == 0 then Wake(0) else Report]
            && s'.nodes[i].childNotReady == s.nodes[i].childNotReady[j := HaveChild(|s.nodes|, i, j)]
            && forall y: nat | y < |s.nodes| && y != i :: s'.nodes[y] == s.nodes[y]
  {
    AfterKeepsShape(s, i);
    hide HaveChild;
  }

  /** Re-arming is counted at the child whose flag it is, and sets the flag if there is one. */
  lemma RearmCounts(s: State, i: nat, x: nat)
    requires Shape(s) && i < |s.nodes| && s.stage[i].Rearm? && 0 < x < |s.nodes|
    ensures Shape(After(s, i)) && |After(s, i).nodes| == |s.nodes|
    ensures var p, slot := QuadParent(x), QuadSlot(x);
            var rearmed := p == i && slot == s.stage[i].j;
            && Rearmed(After(s, i), p, slot) == Rearmed(s, p, slot) + One(rearmed)
            && After(s, i).nodes[p].childNotReady[slot] == (rearmed || s.nodes[p].childNotReady[slot])
    ensures Reported(After(s, i), x) == Reported(s, x)
  {
    hide After, HaveChild, QuadChild, QuadParent, QuadSlot;
    RearmEffect(s, i);
    QuadTies(x, 0);
    assert QuadParent(x) == i && QuadSlot(x) == s.stage[i].j ==> HaveChild(|s.nodes|, i, s.stage[i].j) by {
      HaveChildTies(|s.nodes|, x);
    }
  }

  lemma RearmKeepsArrival(s: State, i: nat, x: nat)
    requires Shape(s) && i < |s.nodes| && s.stage[i].Rearm? && OwnLaw(s, i) && 0 < x < |s.nodes| && ArrivalLaw(s, x)
    ensures Shape(After(s, i)) && |After(s, i).nodes| == |s.nodes| && ArrivalLaw(After(s, i), x)
  {
    RearmCounts(s, i, x);
    assert QuadParent(x) == i && QuadSlot(x) == s.stage[i].j ==> !s.nodes[i].childNotReady[QuadSlot(x)];
    hide Shape, After, Reported, Rearmed, QuadParent, QuadSlot;
  }

  /** A report is counted once and takes off the reporter's flag. */
  lemma ReportCounts(s: State, i: nat, x: nat)
    requires Shape(s) && 0 < i < |s.nodes| && s.stage[i] == Report && 0 < x < |s.nodes|
    ensures Shape(After(s, i)) && |After(s, i).nodes| == |s.nodes|
    ensures var p, slot := QuadParent(x), QuadSlot(x);
            && Rearmed(After(s, i), p, slot) == Rearmed(s, p, slot)
            && After(s, i).nodes[p].childNotReady[slot] == (x != i && s.nodes[p].childNotReady[slot])
    ensures Reported(After(s, i), x) == Reported(s, x) + One(x == i)
  {
    AfterKeepsShape(s, i);
    QuadTies(x, 0);
    QuadTies(i, 0);
    assert x != i ==> QuadParent(x) != QuadParent(i) || QuadSlot(x) != QuadSlot(i);
    hide QuadParent, QuadSlot, QuadChild, Shape;
  }

  lemma ReportKeepsArrival(s: State, i: nat, x: nat)
    requires Shape(s) && 0 < i < |s.nodes| && s.stage[i] == Report && 0 < x < |s.nodes| && ArrivalLaw(s, x)
    requires Rearmed(s, QuadParent(i), QuadSlot(i)) >= s.done[i]
    ensures Shape(After(s, i)) && |After(s, i).nodes| == |s.nodes| && ArrivalLaw(After(s, i), x)
  {
    ReportCounts(s, i, x);
    assert Reported(s, i) == s.done[i];
    hide Shape, After, Reported, Rearmed, QuadParent, QuadSlot;
  }

  lemma StepKeepsArrival(s: State, i: nat, x: nat)
    requires Laws(s) && i < |s.nodes| && 0 < x < |s.nodes|
    ensures Shape(After(s, i)) && |After(s, i).nodes| == |s.nodes| && ArrivalLaw(After(s, i), x)
  {
    assert ArrivalLaw(s, x) && OwnLaw(s, i);
    if s.stage[i].Rearm? {
      hide After, Shape, ArrivalLaw;
      RearmKeepsArrival(s, i, x);
    } else if s.stage[i] == Report {
      assert i > 0;
      WokenIsReleased(s, i);
      ReleasedIsReported(s, QuadParent(i));
      hide After, Shape, ArrivalLaw;
      ReportKeepsArrival(s, i, x);
    } else {
      ArrivalFrame(s, i);
      hide After, Shape;
    }
  }

  lemma WakeEffect(s: State, i: nat)
    requires Shape(s) && i < |s.nodes| && s.stage[i].Wake?
    ensures var s', c := After(s, i), s.stage[i].c;
            && Shape(s') && |s'.nodes| == |s.nodes|
            && s'.stage == s.stage[i := if c == 0 then Wake(1) else Outside]
            && s'.done == (if c == 0 then s.done else s.done[i := s.done[i] + 1])
            && forall y: nat | y < |s.nodes| ::
                 s'.nodes[y].parentSense == if y == BinaryChild(i, c) then s.nodes[i].sense else s.nodes[y].parentSense
  {
    AfterKeepsShape(s, i);
    hide BinaryChild;
  }

  /** A wake-up is counted at the child it is meant for, and the waker's sense has the right parity. */
  lemma WakeUpCounts(s: State, i: nat, x: nat)
    requires Shape(s) && i < |s.nodes| && s.stage[i].Wake? && OwnLaw(s, i) && 0 < x < |s.nodes|
    ensures Shape(After(s, i)) && |After(s, i).nodes| == |s.nodes|
    ensures var woken := BinaryParent(x) == i && BinarySlot(x) == s.stage[i].c;
            && Woken(After(s, i), x) == Woken(s, x) + One(woken)
            && (woken ==> Woken(s, x) == s.done[i])
            && After(s, i).nodes[x].parentSense == if woken then !Odd(s.done[i]) else s.nodes[x].parentSense
  {
    hide After, Odd, BinaryParent, BinarySlot, BinaryChild;
    WakeEffect(s, i);
    BinaryTies(x, 0);
    BinaryTies(i, s.stage[i].c);
  }

  lemma WakeUpKeepsWake(s: State, i: nat, x: nat)
    requires Shape(s) && i < |s.nodes| && s.stage[i].Wake? && OwnLaw(s, i) && 0 < x < |s.nodes| && WakeLaw(s, x)
    requires BinaryParent(x) == i ==> s.done[i] <= s.done[x]
    ensures Shape(After(s, i)) && |After(s, i).nodes| == |s.nodes| && WakeLaw(After(s, i), x)
  {
    hide Odd, Woken;
    WakeUpCounts(s, i, x);
    OddAlternates(s.done[i]);
    assert After(s, i).done[x] == if x == i && s.stage[i].c == 1 then s.done[x] + 1 else s.done[x];
    assert After(s, i).stage[x] == if x == i then (if s.stage[i].c == 0 then Wake(1) else Outside) else s.stage[x];
    hide Shape, Odd, After, Woken;
  }

  lemma StepKeepsWake(s: State, i: nat, x: nat)
    requires Laws(s) && i < |s.nodes| && 0 < x < |s.nodes|
    ensures Shape(After(s, i)) && |After(s, i).nodes| == |s.nodes| && WakeLaw(After(s, i), x)
  {
    assert WakeLaw(s, x) && OwnLaw(s, i) && OwnLaw(s, x);
    if s.stage[i].Wake? {
      if BinaryParent(x) == i {
        WokenIsReleased(s, i);
        ReleasedIsReported(s, x);
      }
      hide After, Shape, WakeLaw;
      WakeUpKeepsWake(s, i, x);
    } else {
      WakeFrame(s, i);
      assert s.stage[x] == AwaitParent || !After(s, i).stage[x].Wake? || s.stage[x].Wake?;
      assert s.stage[x] == AwaitParent && i == x && After(s, i).stage[x].Wake? ==> s.nodes[x].parentSense == s.nodes[x].sense;
      hide After, Shape;
    }
  }

  lemma StepKeepsLaws(s: State, i: nat)
    requires Laws(s) && i < |s.nodes|
    ensures Laws(After(s, i))
  {
    AfterKeepsShape(s, i);
    hide After;
    forall x: nat | x < |s.nodes| ensures OwnLaw(After(s, i), x) { StepKeepsOwn(s, i, x); }
    forall x: nat | 0 < x < |s.nodes| ensures ArrivalLaw(After(s, i), x) { StepKeepsArrival(s, i, x); }
    forall x: nat | 0 < x < |s.nodes| ensures WakeLaw(After(s, i), x) { StepKeepsWake(s, i, x); }
  }

  // ----- runs

  /** The state after the threads in the schedule have taken one step each, in that order. */
  function Execute(s: State, schedule: seq<nat>): (s': State)
    requires Shape(s) && forall k: nat | k < |schedule| :: schedule[k] < |s.nodes|
    ensures Shape(s') && |s'.nodes| == |s.nodes|
  {
    if schedule == [] then s
    else
      var last := |schedule| - 1;
      var s1 := Execute(s, schedule[..last]);
      AfterKeepsShape(s1, schedule[last]);
      After(s1, schedule[last])
  }

  lemma {:induction false} ExecuteKeepsLaws(s: State, schedule: seq<nat>)
    requires Laws(s) && forall k: nat | k < |schedule| :: schedule[k] < |s.nodes|
    ensures Laws(Execute(s, schedule))
  {
    if schedule != [] {
      var last := |schedule| - 1;
      ExecuteKeepsLaws(s, schedule[..last]);
      StepKeepsLaws(Execute(s, schedule[..last]), schedule[last]);
    }
  }

  /** In every run no thread leaves its k-th wait before every thread has entered its k-th, and no
      thread gets more than one episode ahead of another. */
  lemma BarrierIsSafe(s: State, schedule: seq<nat>, i: nat, j: nat)
    requires Initial(s) && (forall k: nat | k < |schedule| :: schedule[k] < |s.nodes|)
    requires i < |s.nodes| && j < |s.nodes|
    ensures var s' := Execute(s, schedule);
            s'.done[i] <= Entered(s', j) && s'.done[i] <= s'.done[j] + 1
  {
    InitialKeepsLaws(s);
    ExecuteKeepsLaws(s, schedule);
    var s' := Execute(s, schedule);
    WokenIsReleased(s', i);
    ReleasedIsReported(s', j);
    assert j == 0 ==> Rearmed(s', 0, 0) >= Released(s');
  }

  /** A thread in wait whose loop condition says to go round again. */
  ghost predicate Spinning(s: State, i: nat)
    requires Shape(s) && i < |s.nodes|
  {
    || (s.stage[i].Gather? && exists j: nat :: j < 4 && s.nodes[i].childNotReady[j])
    || (s.stage[i] == AwaitParent && s.nodes[i].parentSense != s.nodes[i].sense)
  }

  ghost predicate CanMove(s: State, i: nat)
    requires Shape(s)
  {
    i < |s.nodes| && s.stage[i] != Outside && !Spinning(s, i)
  }

  /** While nobody has been released, the highest thread that has not reported has all its children's
      reports. */
  lemma {:induction false} SomeoneReports(s: State, e: nat, bound: nat) returns (i: nat)
    requires Laws(s) && 0 < bound <= |s.nodes|
    requires forall x: nat | x < |s.nodes| :: s.done[x] == e && s.stage[x] != Outside
    requires forall x: nat | bound <= x < |s.nodes| :: s.stage[x] == AwaitParent
    ensures CanMove(s, i)
  {
    i := bound - 1;
    if s.stage[i] == AwaitParent {
      i := SomeoneReports(s, e, bound - 1);
    } else if s.stage[i].Gather? {
      forall j: nat | j < 4 ensures !s.nodes[i].childNotReady[j] {
        assert OwnLaw(s, i);
        if HaveChild(|s.nodes|, i, j) {
          QuadTies(i, j);
          assert ArrivalLaw(s, QuadChild(i, j));
        }
      }
    }
  }

  /** Once thread 0 has left, the topmost thread of the wakeup tree that has not is awake. */
  lemma {:induction false} SomeoneWakes(s: State, e: nat, late: nat) returns (i: nat)
    requires Laws(s) && late < |s.nodes| && s.done[late] == e && s.done[0] == e + 1
    requires forall x: nat | x < |s.nodes| :: Entered(s, x) >= e + 1
    ensures CanMove(s, i)
  {
    i := late;
    ReleasedIsReported(s, i);
    assert WakeLaw(s, i) && OwnLaw(s, i);
    OddAlternates(e);
    var w := BinaryParent(i);
    assert Entered(s, w) >= e + 1;
    if Woken(s, i) == e {
      i := SomeoneWakes(s, e, w);
    }
  }

  lemma SomeoneMoves(s: State, k: nat, late: nat) returns (i: nat)
    requires Laws(s) && late < |s.nodes| && s.done[late] < k
    requires forall x: nat | x < |s.nodes| :: Entered(s, x) >= k
    ensures CanMove(s, i)
  {
    forall x: nat | x < |s.nodes| ensures s.done[x] <= Released(s) <= s.done[late] + 1 {
      WokenIsReleased(s, x);
      ReleasedIsReported(s, late);
      assert late == 0 ==> Rearmed(s, 0, 0) >= Released(s);
    }
    if s.stage[0].Wake? {
      i := 0;
    } else if s.done[0] == k {
      i := SomeoneWakes(s, k - 1, late);
    } else {
      assert Entered(s, 0) >= k;
      forall x: nat | x < |s.nodes| ensures s.done[x] == k - 1 && s.stage[x] != Outside { assert Entered(s, x) >= k; }
      i := SomeoneReports(s, k - 1, |s.nodes|);
    }
  }

  /** Deadlock freedom: in every run, if all threads have entered their k-th wait and some thread has
      not left it, then some thread in wait is not spinning. */
  lemma NoDeadlock(s: State, schedule: seq<nat>, k: nat, late: nat) returns (i: nat)
    requires Initial(s) && (forall m: nat | m < |schedule| :: schedule[m] < |s.nodes|) && late < |s.nodes|
    requires forall x: nat | x < |s.nodes| :: Entered(Execute(s, schedule), x) >= k
    requires Execute(s, schedule).done[late] < k
    ensures CanMove(Execute(s, schedule), i)
  {
    InitialKeepsLaws(s);
    ExecuteKeepsLaws(s, schedule);
    hide Laws;
    i := SomeoneMoves(Execute(s, schedule), k, late);
  }

  /** How far thread i has come through its waits; looking at flags does not count. */
  ghost function Age(s: State, i: nat): int {
    if i >= |s.done| || i >= |s.stage| then 0
    else
      10 * s.done[i] +
      match s.stage[i]
      case Outside => 0
      case Gather(_) => 1
      case Rearm(j) => 2 + j
      case Report => 6
      case AwaitParent => 7
      case Wake(c) => 8 + c
  }
  ghost function Ages(s: State): nat -> int { (i: nat) => Age(s, i) }

  lemma StepAges(s: State, i: nat)
    requires Shape(s) && i < |s.nodes|
    ensures Age(After(s, i), i) >= Age(s, i)
    ensures Sum(|s.nodes|, Ages(After(s, i))) == Sum(|s.nodes|, Ages(s)) + Age(After(s, i), i) - Age(s, i)
  {
    AfterKeepsShape(s, i);
    assert Age(After(s, i), i) >= Age(s, i);
    hide Shape;
    assert forall x: nat | x < |s.nodes| && x != i :: Age(After(s, i), x) == Age(s, x);
    hide After, Age;
    SumPoint(|s.nodes|, Ages(s), Ages(After(s, i)), i, Age(After(s, i), i) - Age(s, i));
  }

  /** A thread that is not spinning gets further within four steps of its own. */
  lemma {:induction false} MoverAges(s: State, i: nat) returns (n: nat)
    requires Shape(s) && CanMove(s, i)
    ensures 0 < n <= 4 && Age(Execute(s, seq(n, _ => i)), i) > Age(s, i)
    ensures s.stage[i].Gather? ==> n <= 4 - s.stage[i].j
    decreases if s.stage[i].Gather? then 4 - s.stage[i].j else 0
  {
    var s1 := After(s, i);
    AfterKeepsShape(s, i);
    assert Execute(s, [i]) == s1 by { assert [i][..0] == []; }
    if s.stage[i].Gather? && s.stage[i].j < 3 {
      n := MoverAges(s1, i);
      StartsWith(s, i, n);
      n := n + 1;
    } else {
      n := 1;
      assert seq(1, _ => i) == [i];
    }
  }

  lemma {:induction false} StartsWith(s: State, i: nat, n: nat)
    requires Shape(s) && i < |s.nodes|
    ensures Shape(After(s, i)) && |After(s, i).nodes| == |s.nodes|
    ensures Execute(s, seq(n + 1, _ => i)) == Execute(After(s, i), seq(n, _ => i))
  {
    AfterKeepsShape(s, i);
    assert seq(n + 1, _ => i)[..n] == seq(n, _ => i);
    if n > 0 {
      StartsWith(s, i, n - 1);
      assert seq(n, _ => i)[..n - 1] == seq(n - 1, _ => i);
    }
  }

  ghost function AgingSteps(s: State, schedule: seq<nat>): nat
    requires Shape(s) && forall k: nat | k < |schedule| :: schedule[k] < |s.nodes|
  {
    if schedule == [] then 0
    else
      var last := |schedule| - 1;
      var s1 := Execute(s, schedule[..last]);
      AgingSteps(s, schedule[..last]) + One(Age(After(s1, schedule[last]), schedule[last]) > Age(s1, schedule[last]))
  }

  lemma {:induction false} AgingStepsAreCounted(s: State, schedule: seq<nat>)
    requires Shape(s) && forall k: nat | k < |schedule| :: schedule[k] < |s.nodes|
    ensures Sum(|s.nodes|, Ages(Execute(s, schedule))) >= Sum(|s.nodes|, Ages(s)) + AgingSteps(s, schedule)
  {
    if schedule != [] {
      var last := |schedule| - 1;
      AgingStepsAreCounted(s, schedule[..last]);
      StepAges(Execute(s, schedule[..last]), schedule[last]);
    }
  }

  /** Nor can the threads go on forever without finishing: as long as nobody enters wait for the
      (k+1)-st time, they take at most 10 k steps per thread that get them any further. */
  lemma EpisodesEnd(s: State, schedule: seq<nat>, k: nat)
    requires Initial(s) && (forall m: nat | m < |schedule| :: schedule[m] < |s.nodes|)
    requires forall x: nat | x < |s.nodes| :: Entered(Execute(s, schedule), x) <= k
    ensures AgingSteps(s, schedule) <= Times(|s.nodes|, 10 * k)
  {
    var s' := Execute(s, schedule);
    AgingStepsAreCounted(s, schedule);
    SumZero(|s.nodes|, Ages(s));
    forall x: nat | x < |s.nodes| ensures Age(s', x) <= 10 * k { assert Entered(s', x) <= k; }
    SumAtMost(|s.nodes|, Ages(s'), 10 * k);
  }

  // ----- the code

  class MCSBarrier {
    var nodes: seq<TreeNode>
    var stage: seq<Stage>
    var done: seq<nat>

    function Snapshot(): State
      reads this
    {
      State(nodes, stage, done)
    }

    method Reinit(P: nat)
      modifies this
      ensures |nodes| == P && Initial(Snapshot())
      ensures forall i: nat | i < P ::
                nodes[i].childNotReady == [4 * i + 1 < P, 4 * i + 2 < P, 4 * i + 3 < P, 4 * i + 4 < P]
                && !nodes[i].parentSense && nodes[i].sense && stage[i] == Outside && done[i] == 0
    {
      nodes := [];
      stage := seq(P, _ => Outside);
      done := seq(P, _ => 0);
      var i := 0;
      while i < P
        invariant 0 <= i == |nodes| <= P
        invariant forall x: nat | x < i :: nodes[x] == FreshNode(P, x)
        invariant |stage| == |done| == P && forall x: nat | x < P :: stage[x] == Outside && done[x] == 0
      {
        var childNotReady := ChildFlags(P, i);
        nodes := nodes + [TreeNode(childNotReady, false, true)];
        i := i + 1;
      }
    }

    method ChildFlags(P: nat, i: nat) returns (childNotReady: seq<bool>)
      ensures childNotReady == FreshNode(P, i).childNotReady
    {
      childNotReady := [];
      var j := 0;
      while j < 4
        invariant 0 <= j == |childNotReady| <= 4
        invariant forall x: nat | x < j :: childNotReady[x] == HaveChild(P, i, x)
      {
        childNotReady := childNotReady + [4 * i + j + 1 < P];
        j := j + 1;
      }
    }

    /** The next shared access of thread i in wait. */
    method Step(i: nat)
      requires Shape(Snapshot()) && i < |nodes|
      modifies this
      ensures Snapshot() == After(old(Snapshot()), i)
      ensures |nodes| == |old(nodes)|
      ensures forall y: nat | y < |old(nodes)| ::
                && nodes[y].parentSense == (if old(stage)[i].Wake? && y == 2 * i + old(stage)[i].c + 1 then old(nodes)[i].sense else old(nodes)[y].parentSense)
                && nodes[y].sense == if old(stage)[i] == Wake(1) && y == i then !old(nodes)[y].sense else old(nodes)[y].sense
      ensures forall y: nat | y < |nodes| :: |old(nodes)[y].childNotReady| == 4 && |nodes[y].childNotReady| == 4
      ensures forall y: nat, j: nat | y < |nodes| && j < 4 ::
                nodes[y].childNotReady[j] ==
                  if old(stage)[i] == Rearm(j) && y == i then 4 * i + j + 1 < |old(nodes)|
                  else if old(stage)[i] == Report && y == (i - 1) / 4 && j == (i - 1) % 4 then false
                  else old(nodes)[y].childNotReady[j]
      ensures stage == old(stage)[i :=
                match old(stage)[i]
                case Outside => Gather(0)
                case Gather(j) => if old(nodes)[i].childNotReady[j] then Gather(0) else if j < 3 then Gather(j + 1) else Rearm(0)
                case Rearm(j) => if j < 3 then Rearm(j + 1) else if i == 0 then Wake(0) else Report
                case Report => AwaitParent
                case AwaitParent => if old(nodes)[i].parentSense == old(nodes)[i].sense then Wake(0) else AwaitParent
                case Wake(c) => if c == 0 then Wake(1) else Outside]
      ensures done == if old(stage)[i] == Wake(1) then old(done)[i := old(done)[i] + 1] else old(done)
    {
      ghost var was := Snapshot();
      Access(i);
      hide After, Shape;
      AccessWrites(was, i);
    }

    method Access(i: nat)
      requires Shape(Snapshot()) && i < |nodes|
      modifies this
      ensures Snapshot() == After(old(Snapshot()), i)
    {
      match stage[i]
      case Outside =>
        stage := stage[i := Gather(0)];
      case Gather(j) =>
        LookAt(i, j);
      case Rearm(j) =>
        RearmFlag(i, j);
      case Report =>
        ReportReady(i);
      case AwaitParent =>
        LookForParent(i);
      case Wake(c) =>
        WakeUp(i, c);
    }

    method LookAt(i: nat, j: nat)
      requires Shape(Snapshot()) && i < |nodes| && stage[i] == Gather(j)
      modifies `stage
      ensures Snapshot() == AfterGather(old(Snapshot()), i)
    {
      stage := stage[i := if nodes[i].childNotReady[j] then Gather(0) else if j < 3 then Gather(j + 1) else Rearm(0)];
    }

    method RearmFlag(i: nat, j: nat)
      requires Shape(Snapshot()) && i < |nodes| && stage[i] == Rearm(j)
      modifies `nodes, `stage
      ensures Snapshot() == AfterRearm(old(Snapshot()), i)
    {
      nodes := nodes[i := nodes[i].(childNotReady := nodes[i].childNotReady[j := 4 * i + j + 1 < |nodes|])];
      stage := stage[i := if j < 3 then Rearm(j + 1) else if i == 0 then Wake(0) else Report];
    }

    method ReportReady(i: nat)
      requires Shape(Snapshot()) && 0 < i < |nodes|
      modifies `nodes, `stage
      ensures Snapshot() == AfterReport(old(Snapshot()), i)
    {
      var p := (i - 1) / 4;
      nodes := nodes[p := nodes[p].(childNotReady := nodes[p].childNotReady[(i - 1) % 4 := false])];
      stage := stage[i := AwaitParent];
    }

    method LookForParent(i: nat)
      requires Shape(Snapshot()) && i < |nodes| && stage[i] == AwaitParent
      modifies `stage
      ensures Snapshot() == AfterAwait(old(Snapshot()), i)
    {
      if nodes[i].parentSense == nodes[i].sense {
        stage := stage[i := Wake(0)];
      }
    }

    method WakeUp(i: nat, c: nat)
      requires Shape(Snapshot()) && i < |nodes| && stage[i] == Wake(c)
      modifies this
      ensures Snapshot() == AfterWake(old(Snapshot()), i)
    {
      var k := 2 * i + c + 1;
      if k < |nodes| {
        nodes := nodes[k := nodes[k].(parentSense := nodes[i].sense)];
      }
      if c == 0 {
        stage := stage[i := Wake(1)];
      } else {
        nodes := nodes[i := nodes[i].(sense := !nodes[i].sense)];
        stage := stage[i := Outside];
        done := done[i := done[i] + 1];
      }
    }

    /** Any interleaving of the waits of all threads. */
    method Run(schedule: seq<nat>)
      requires Initial(Snapshot()) && forall k: nat | k < |schedule| :: schedule[k] < |nodes|
      modifies this
      ensures old(|nodes|) == |nodes| && Snapshot() == Execute(old(Snapshot()), schedule) && Shape(Snapshot())
      ensures forall i: nat, j: nat | i < |nodes| && j < |nodes| ::
                done[i] <= Entered(Snapshot(), j) && done[i] <= done[j] + 1
    {
      ghost var start := Snapshot();
      hide After, Initial;
      assert schedule[..0] == [];
      var k := 0;
      while k < |schedule|
        invariant 0 <= k <= |schedule| && |nodes| == |start.nodes| && Shape(start)
        invariant Snapshot() == Execute(start, schedule[..k])
      {
        assert schedule[..k + 1][..k] == schedule[..k];
        AfterKeepsShape(Snapshot(), schedule[k]);
        Step(schedule[k]);
        k := k + 1;
      }
      assert schedule[..k] == schedule;
      forall i: nat, j: nat | i < |nodes| && j < |nodes|
        ensures done[i] <= Entered(Snapshot(), j) && done[i] <= done[j] + 1
      {
        BarrierIsSafe(start, schedule, i, j);
      }
    }
  }
}
