/** The topology barrier. The threads of a package report to their leader through a counter, and the
    leaders form the arrival and wakeup trees; episodes are told apart by a running sense that wraps
    around. A wait is split at every access to shared data. */
module TopoBarrier {
  import opened Sums
  import opened Topology
  import opened Trees

  const WORD: nat := 0x1_0000_0000

  datatype PackageNode = PackageNode(childNotReady: nat, parentSense: nat)

  /** Where a thread is in wait: a follower about to arrive; a leader waiting for its counter, about
      to re-arm it, or about to report to the parent package; waiting to be woken; or a leader about
      to wake child package c, thread 0 in the end (c = 2) its own package. */
  datatype Stage = Outside | Arrive | Gather | Rearm | Report | Await | Wake(c: nat)

  /** packages[i] is the package of thread i. done[i] counts the waits that thread i has left. */
  datatype State = State(packages: seq<nat>, nodes: seq<PackageNode>, sense: seq<nat>, stage: seq<Stage>, done: seq<nat>)

  ghost predicate Shape(s: State) {
    && 0 < |s.packages| < WORD && Dense(s.packages)
    && |s.nodes| == Pkgs(s.packages, |s.packages|)
    && |s.sense| == |s.stage| == |s.done| == |s.packages|
  }

  /** The leader of package g. */
  function LeaderOf(s: State, g: nat): (l: nat)
    requires Shape(s) && g < |s.nodes|
    ensures l < |s.packages| && s.packages[l] == g && Leader(s.packages, l)
    ensures forall i: nat | i < |s.packages| && s.packages[i] == g && Leader(s.packages, i) :: i == l
  {
    LeaderIsUnique(s.packages, g);
    FirstOf(s.packages, |s.packages|, g)
  }

  /** The number of followers of package g among the first n threads. */
  function Followers(packages: seq<nat>, n: nat, g: nat): nat
    requires n <= |packages|
  {
    if n == 0 then 0
    else Followers(packages, n - 1, g) + if packages[n - 1] == g && !Leader(packages, n - 1) then 1 else 0
  }

  /** The number of child packages of g with an offset below j. */
  function Children(pkgs: nat, g: nat, j: nat): nat {
    if j == 0 then 0 else Children(pkgs, g, j - 1) + if QuadChild(g, j - 1) < pkgs then 1 else 0
  }

  function HaveChild(packages: seq<nat>, g: nat): nat {
    Children(Pkgs(packages, |packages|), g, 4) + Followers(packages, |packages|, g)
  }

  ghost predicate Initial(s: State) {
    && Shape(s)
    && (forall g: nat | g < |s.nodes| :: s.nodes[g] == PackageNode(HaveChild(s.packages, g), 0))
    && (forall i: nat | i < |s.packages| :: s.sense[i] == 1 && s.stage[i] == Outside && s.done[i] == 0)
  }

  // ----- the next access of thread i

  function MoveTo(s: State, i: nat, stage: Stage): State
    requires i < |s.stage|
  {
    s.(stage := s.stage[i := stage])
  }

  /** Unsigned decrement and increment. */
  function Decrement(c: nat): nat { (c + WORD - 1) % WORD }
  function Increment(c: nat): nat { (c + 1) % WORD }

  /** Both wrap around as unsigned ints of 32 bits do. */
  lemma WordsWrap(c: nat)
    requires c < 4294967296
    ensures Decrement(c) == if c == 0 then 4294967295 else c - 1
    ensures Increment(c) == if c == 4294967295 then 0 else c + 1
  {
  }

  function SetCounter(s: State, g: nat, c: nat): State
    requires g < |s.nodes|
  {
    s.(nodes := s.nodes[g := s.nodes[g].(childNotReady := c)])
  }

  function Signal(s: State, g: nat, sense: nat): State {
    if g < |s.nodes| then s.(nodes := s.nodes[g := s.nodes[g].(parentSense := sense)]) else s
  }

  /** A thread's sense is its own, so moving it on is part of the last access. */
  function Leave(s: State, i: nat): State
    requires i < |s.stage| && i < |s.sense| && i < |s.done|
  {
    s.(sense := s.sense[i := Increment(s.sense[i])], stage := s.stage[i := Outside], done := s.done[i := s.done[i] + 1])
  }

  /** Package 0 is led by thread 0, which reports to nobody and waits for nobody. */
  function After(s: State, i: nat): State
    requires Shape(s) && i < |s.packages|
  {
    var g := s.packages[i];
    match s.stage[i]
    case Outside => MoveTo(s, i, if Leader(s.packages, i) then Gather else Arrive)
    case Arrive => MoveTo(SetCounter(s, g, Decrement(s.nodes[g].childNotReady)), i, Await)
    case Gather => if s.nodes[g].childNotReady != 0 then s else MoveTo(s, i, Rearm)
    case Rearm =>
      MoveTo(SetCounter(s, g, HaveChild(s.packages, g)), i, if g == 0 then Wake(0) else Report)
    case Report =>
      if g == 0 then s
      else
        var p := QuadParent(g);
        MoveTo(SetCounter(s, p, Decrement(s.nodes[p].childNotReady)), i, Await)
    case Await =>
      if s.nodes[g].parentSense != s.sense[i] then s
      else if Leader(s.packages, i) then MoveTo(s, i, Wake(0))
      else Leave(s, i)
    case Wake(c) =>
      if c < 2 then
        var s1 := Signal(s, BinaryChild(g, c), s.sense[i]);
        if c == 0 then MoveTo(s1, i, Wake(1)) else if i == 0 then MoveTo(s1, i, Wake(2)) else Leave(s1, i)
      else
        Leave(Signal(s, g, s.sense[i]), i)
  }

  // ----- episode counts

  /** How often thread i has entered wait, and reported to the counter it counts for. */
  ghost function Entered(s: State, i: nat): nat
    requires Shape(s) && i < |s.packages|
  {
    s.done[i] + One(s.stage[i] != Outside)
  }

  ghost function Arrived(s: State, i: nat): nat
    requires Shape(s) && i < |s.packages|
  {
    s.done[i] + One(s.stage[i] == Await || s.stage[i].Wake?)
  }

  /** How often package g has had its counter re-armed, and been woken. */
  ghost function Rearmed(s: State, g: nat): nat
    requires Shape(s) && g < |s.nodes|
  {
    var l := LeaderOf(s, g);
    s.done[l] + One(s.stage[l] == Report || s.stage[l] == Await || s.stage[l].Wake?)
  }

  ghost function Woken(s: State, g: nat): nat
    requires Shape(s) && g < |s.nodes|
  {
    if g == 0 then s.done[0]
    else
      var l := LeaderOf(s, BinaryParent(g));
      s.done[l] + One(s.stage[l].Wake? && s.stage[l].c > BinarySlot(g))
  }

  /** How many episodes thread 0 has declared complete. */
  ghost function Released(s: State): nat
    requires Shape(s)
  {
    s.done[0] + One(s.stage[0].Wake?)
  }

  // ----- invariants

  /** The package whose counter thread i > 0 counts for. */
  ghost function Target(s: State, i: nat): (g: nat)
    requires Shape(s) && 0 < i < |s.packages|
    ensures g < |s.nodes|
  {
    MasterLeadsPackageZero(s.packages);
    if Leader(s.packages, i) then QuadParent(s.packages[i]) else s.packages[i]
  }

  ghost predicate Counts(s: State, i: nat, g: nat)
    requires Shape(s)
  {
    0 < i < |s.packages| && Target(s, i) == g
  }

  /** The threads that counter g still waits for in the present episode. */
  ghost function Pending(s: State, g: nat): nat -> int
    requires Shape(s) && g < |s.nodes|
  {
    (i: nat) => One(Counts(s, i, g) && Arrived(s, i) == Rearmed(s, g))
  }

  ghost predicate OwnLaw(s: State, i: nat)
    requires Shape(s) && i < |s.packages|
  {
    var stage := s.stage[i];
    && s.sense[i] == (s.done[i] + 1) % WORD
    && (Leader(s.packages, i) ==> stage != Arrive)
    && (!Leader(s.packages, i) ==> stage == Outside || stage == Arrive || stage == Await)
    && (i == 0 ==> stage != Report && stage != Await)
    && (stage == Report ==> s.packages[i] > 0)
    && (stage.Wake? ==> stage.c < 2 || (stage.c == 2 && i == 0))
  }

  ghost predicate ArrivalLaw(s: State, i: nat)
    requires Shape(s) && 0 < i < |s.packages|
  {
    var g := Target(s, i);
    Rearmed(s, g) <= Arrived(s, i) <= Rearmed(s, g) + 1
  }

  ghost predicate CounterLaw(s: State, g: nat)
    requires Shape(s) && g < |s.nodes|
  {
    && s.nodes[g].childNotReady == Sum(|s.packages|, Pending(s, g))
    && (s.stage[LeaderOf(s, g)] == Rearm ==> s.nodes[g].childNotReady == 0)
  }

  ghost predicate WakeLaw(s: State, i: nat)
    requires Shape(s) && 0 < i < |s.packages|
  {
    var woken := Woken(s, s.packages[i]);
    s.done[i] <= woken <= s.done[i] + 1 && (s.stage[i].Wake? ==> woken == s.done[i] + 1)
  }

  ghost predicate ParentLaw(s: State, g: nat)
    requires Shape(s) && g < |s.nodes|
  {
    s.nodes[g].parentSense == Woken(s, g) % WORD
  }

  ghost predicate Laws(s: State) {
    && Shape(s)
    && (forall i: nat | i < |s.packages| :: OwnLaw(s, i))
    && (forall i: nat | 0 < i < |s.packages| :: ArrivalLaw(s, i))
    && (forall g: nat | g < |s.nodes| :: CounterLaw(s, g))
    && (forall i: nat | 0 < i < |s.packages| :: WakeLaw(s, i))
    && (forall g: nat | g < |s.nodes| :: ParentLaw(s, g))
  }

  // ----- the counters start right

  ghost function Member(s: State, g: nat): nat -> int
    requires Shape(s)
  {
    (i: nat) => One(Counts(s, i, g))
  }
  ghost function LeaderOfChild(s: State, g: nat, j: nat): nat -> int
    requires Shape(s)
  {
    (i: nat) => One(i < |s.packages| && Leader(s.packages, i) && s.packages[i] == QuadChild(g, j))
  }
  ghost function LeaderOfChildren(s: State, g: nat, j: nat): nat -> int
    requires Shape(s)
  {
    (i: nat) => One(i < |s.packages| && Leader(s.packages, i) && QuadChild(g, 0) <= s.packages[i] < QuadChild(g, j))
  }
  ghost function Follower(s: State, g: nat): nat -> int {
    (i: nat) => if i < |s.packages| && s.packages[i] == g && !Leader(s.packages, i) then 1 else 0
  }

  lemma {:induction false} FollowersSum(s: State, n: nat, g: nat)
    requires n <= |s.packages|
    ensures Followers(s.packages, n, g) == Sum(n, Follower(s, g))
  {
    if n > 0 { FollowersSum(s, n - 1, g); }
  }

  lemma {:induction false} ChildrenSum(s: State, g: nat, j: nat)
    requires Shape(s)
    ensures Children(|s.nodes|, g, j) == Sum(|s.packages|, LeaderOfChildren(s, g, j))
  {
    var n := |s.packages|;
    if j == 0 {
      SumZero(n, LeaderOfChildren(s, g, 0));
    } else {
      ChildrenSum(s, g, j - 1);
      ChildSum(s, g, j - 1);
      SumPlus(n, LeaderOfChildren(s, g, j - 1), LeaderOfChild(s, g, j - 1), LeaderOfChildren(s, g, j));
    }
  }

  lemma ChildSum(s: State, g: nat, j: nat)
    requires Shape(s)
    ensures Sum(|s.packages|, LeaderOfChild(s, g, j)) == One(QuadChild(g, j) < |s.nodes|)
  {
    var k, n := QuadChild(g, j), |s.packages|;
    var zero := (i: nat) => 0;
    SumZero(n, zero);
    if k < |s.nodes| {
      SumPoint(n, zero, LeaderOfChild(s, g, j), LeaderOf(s, k), 1);
    } else {
      SumEq(n, zero, LeaderOfChild(s, g, j));
    }
  }

  /** A counter is armed with the number of threads that count for it. */
  lemma HaveChildIsMembers(s: State, g: nat)
    requires Shape(s) && g < |s.nodes|
    ensures HaveChild(s.packages, g) == Sum(|s.packages|, Member(s, g))
  {
    FollowersSum(s, |s.packages|, g);
    ChildrenSum(s, g, 4);
    MasterLeadsPackageZero(s.packages);
    forall i: nat | i < |s.packages| ensures Member(s, g)(i) == LeaderOfChildren(s, g, 4)(i) + Follower(s, g)(i) {
      if i > 0 && Leader(s.packages, i) {
        assert Target(s, i) == QuadParent(s.packages[i]);
      }
    }
    SumPlus(|s.packages|, LeaderOfChildren(s, g, 4), Follower(s, g), Member(s, g));
  }

  /** In plain numbers: the followers of the package, and the leaders of the packages 4g+1 to 4g+4. */
  lemma HaveChildCounts(packages: seq<nat>, g: nat)
    requires 0 < |packages| < WORD && Dense(packages) && g < Pkgs(packages, |packages|)
    ensures HaveChild(packages, g)
         == |set i: nat | 0 < i < |packages| && (if Leader(packages, i) then 4 * g < packages[i] <= 4 * g + 4 else packages[i] == g)|
  {
    var zeros := seq(|packages|, _ => 0);
    var s := State(packages, seq(Pkgs(packages, |packages|), _ => PackageNode(0, 0)), zeros,
                   seq(|packages|, _ => Outside), zeros);
    HaveChildIsMembers(s, g);
    SumCounts(|packages|, Member(s, g));
    MasterLeadsPackageZero(packages);
    hide Dense, Leader;
    assert (set i: nat | i < |packages| && Member(s, g)(i) == 1)
        == (set i: nat | 0 < i < |packages| && (if Leader(packages, i) then 4 * g < packages[i] <= 4 * g + 4 else packages[i] == g));
  }

  lemma InitialCounter(s: State, g: nat)
    requires Initial(s) && g < |s.nodes|
    ensures CounterLaw(s, g)
  {
    HaveChildIsMembers(s, g);
    SumEq(|s.packages|, Member(s, g), Pending(s, g));
  }

  lemma InitialKeepsLaws(s: State)
    requires Initial(s)
    ensures Laws(s)
  {
    assert Shape(s);
    assert forall i: nat | 0 < i < |s.packages| :: ArrivalLaw(s, i);
    assert forall i: nat | 0 < i < |s.packages| :: WakeLaw(s, i);
    assert forall g: nat | g < |s.nodes| :: ParentLaw(s, g);
    hide Shape, CounterLaw, ArrivalLaw, WakeLaw, ParentLaw;
    forall g: nat | g < |s.nodes| ensures CounterLaw(s, g) { InitialCounter(s, g); }
  }

  // ----- what holds between the counts

  /** An episode that thread 0 has released has been reported by every thread, ... */
  lemma {:induction false} ReleasedIsRearmed(s: State, g: nat)
    requires Laws(s) && g < |s.nodes|
    ensures Rearmed(s, g) >= Released(s)
  {
    MasterLeadsPackageZero(s.packages);
    var l := LeaderOf(s, g);
    assert OwnLaw(s, l);
    if g > 0 {
      ReleasedIsRearmed(s, QuadParent(g));
      assert l > 0 && Target(s, l) == QuadParent(g) && ArrivalLaw(s, l);
    }
  }

  lemma ReleasedIsArrived(s: State, i: nat)
    requires Laws(s) && 0 < i < |s.packages|
    ensures Arrived(s, i) >= Released(s)
  {
    ReleasedIsRearmed(s, Target(s, i));
    assert ArrivalLaw(s, i);
  }

  /** ... and nobody is woken for one that has not been released. */
  lemma {:induction false} WokenIsReleased(s: State, g: nat)
    requires Laws(s) && g < |s.nodes|
    ensures Woken(s, g) <= Released(s)
  {
    if g > 0 {
      MasterLeadsPackageZero(s.packages);
      var w := BinaryParent(g);
      var l := LeaderOf(s, w);
      WokenIsReleased(s, w);
      assert l > 0 ==> WakeLaw(s, l);
    }
  }

  lemma DoneIsReleased(s: State, i: nat)
    requires Laws(s) && i < |s.packages|
    ensures s.done[i] <= Released(s)
    ensures s.stage[i].Wake? ==> s.done[i] + 1 <= Released(s)
  {
    if i > 0 {
      assert WakeLaw(s, i);
      WokenIsReleased(s, s.packages[i]);
    }
  }

  // ----- every step keeps the laws

  lemma AfterKeepsShape(s: State, i: nat)
    requires Shape(s) && i < |s.packages|
    ensures var s' := After(s, i); Shape(s') && s'.packages == s.packages && |s'.nodes| == |s.nodes|
    ensures forall g: nat | g < |s.nodes| :: LeaderOf(After(s, i), g) == LeaderOf(s, g)
    ensures forall x: nat | 0 < x < |s.packages| :: Target(After(s, i), x) == Target(s, x)
    ensures forall x: nat | x < |s.packages| && x != i ::
              var s' := After(s, i); s'.stage[x] == s.stage[x] && s'.done[x] == s.done[x] && s'.sense[x] == s.sense[x]
  {
    var s' := After(s, i);
    hide Dense, Leader;
    assert s'.packages == s.packages && |s'.nodes| == |s.nodes|;
    assert |s'.sense| == |s.sense| && |s'.done| == |s.done| && |s'.stage| == |s.stage|;
    assert forall x: nat | x < |s.packages| && x != i ::
             s'.stage[x] == s.stage[x] && s'.done[x] == s.done[x] && s'.sense[x] == s.sense[x];
    hide After, Pkgs;
  }

  lemma StepKeepsOwn(s: State, i: nat, x: nat)
    requires Shape(s) && i < |s.packages| && x < |s.packages| && OwnLaw(s, x)
    ensures Shape(After(s, i)) && After(s, i).packages == s.packages && OwnLaw(After(s, i), x)
  {
    AfterKeepsShape(s, i);
    MasterLeadsPackageZero(s.packages);
    hide Shape;
  }

  /** Only arriving, reporting and re-arming touch the arrival counts and counters. */
  lemma ArrivalFrame(s: State, i: nat)
    requires Shape(s) && i < |s.packages| && OwnLaw(s, i)
    requires s.stage[i] != Arrive && s.stage[i] != Report && s.stage[i] != Rearm
    ensures var s' := After(s, i); Shape(s') && s'.packages == s.packages && |s'.nodes| == |s.nodes|
    ensures forall x: nat | x < |s.packages| :: Arrived(After(s, i), x) == Arrived(s, x)
    ensures forall g: nat | g < |s.nodes| ::
              var s' := After(s, i); Rearmed(s', g) == Rearmed(s, g) && s'.nodes[g].childNotReady == s.nodes[g].childNotReady
  {
    AfterKeepsShape(s, i);
    hide Shape;
  }

  /** Arriving and reporting are counted once, and taken off the right counter. */
  lemma ArriveCounts(s: State, i: nat)
    requires Shape(s) && i < |s.packages| && OwnLaw(s, i) && (s.stage[i] == Arrive || s.stage[i] == Report)
    ensures var s' := After(s, i); Shape(s') && s'.packages == s.packages && |s'.nodes| == |s.nodes|
    ensures i > 0
    ensures forall x: nat | x < |s.packages| :: Arrived(After(s, i), x) == Arrived(s, x) + One(x == i)
    ensures forall g: nat | g < |s.nodes| ::
              var s', c := After(s, i), s.nodes[g].childNotReady;
              Rearmed(s', g) == Rearmed(s, g) && s'.nodes[g].childNotReady == if g == Target(s, i) then Decrement(c) else c
    ensures forall g: nat | g < |s.nodes| :: s.stage[LeaderOf(s, g)] == Rearm <==> After(s, i).stage[LeaderOf(s, g)] == Rearm
  {
    AfterKeepsShape(s, i);
    MasterLeadsPackageZero(s.packages);
    hide Shape;
  }

  lemma PendingBounds(s: State, g: nat)
    requires Shape(s) && g < |s.nodes|
    ensures 0 <= Sum(|s.packages|, Pending(s, g)) < WORD
    ensures forall i: nat | Counts(s, i, g) && Arrived(s, i) == Rearmed(s, g) :: Sum(|s.packages|, Pending(s, g)) >= 1
  {
    var n := |s.packages|;
    SumNonNegative(n, Pending(s, g));
    SumAtMost(n, Pending(s, g), 1);
    TimesOne(n);
    forall i: nat | Counts(s, i, g) && Arrived(s, i) == Rearmed(s, g) ensures Sum(n, Pending(s, g)) >= 1 {
      assert Pending(s, g)(i) == 1;
    }
  }

  lemma DecrementExact(c: nat)
    requires 0 < c < WORD
    ensures Decrement(c) == c - 1
  {
  }

  lemma ArriveKeepsOtherCounter(s: State, i: nat, g: nat)
    requires Shape(s) && i < |s.packages| && OwnLaw(s, i) && (s.stage[i] == Arrive || s.stage[i] == Report)
    requires g < |s.nodes| && CounterLaw(s, g) && !Counts(s, i, g)
    ensures Shape(After(s, i)) && |After(s, i).nodes| == |s.nodes| && CounterLaw(After(s, i), g)
  {
    ArriveCounts(s, i);
    AfterKeepsShape(s, i);
    hide Shape, After, Arrived, Rearmed, Target, OwnLaw, Decrement, Sum;
    SumEq(|s.packages|, Pending(s, g), Pending(After(s, i), g));
  }

  lemma ArriveKeepsOwnCounter(s: State, i: nat, g: nat)
    requires Shape(s) && i < |s.packages| && OwnLaw(s, i) && (s.stage[i] == Arrive || s.stage[i] == Report)
    requires g < |s.nodes| && CounterLaw(s, g) && Counts(s, i, g) && Arrived(s, i) == Rearmed(s, g)
    ensures Shape(After(s, i)) && |After(s, i).nodes| == |s.nodes| && CounterLaw(After(s, i), g)
  {
    ArriveCounts(s, i);
    AfterKeepsShape(s, i);
    PendingBounds(s, g);
    hide Shape, After, Arrived, Rearmed, Target, OwnLaw, Decrement, Sum;
    DecrementExact(s.nodes[g].childNotReady);
    SumPoint(|s.packages|, Pending(s, g), Pending(After(s, i), g), i, -1);
  }

  /** Re-arming is counted once, and makes the counter wait for all its members again. */
  lemma RearmCounts(s: State, i: nat)
    requires Shape(s) && i < |s.packages| && OwnLaw(s, i) && s.stage[i] == Rearm
    ensures var s' := After(s, i); Shape(s') && s'.packages == s.packages && |s'.nodes| == |s.nodes|
    ensures LeaderOf(s, s.packages[i]) == i && After(s, i).stage[i] != Rearm
    ensures forall x: nat | x < |s.packages| :: Arrived(After(s, i), x) == Arrived(s, x) + One(x == i == 0)
    ensures forall g: nat | g < |s.nodes| ::
              var s', mine := After(s, i), g == s.packages[i];
              && Rearmed(s', g) == Rearmed(s, g) + One(mine)
              && s'.nodes[g].childNotReady == if mine then HaveChild(s.packages, g) else s.nodes[g].childNotReady
  {
    AfterKeepsShape(s, i);
    MasterLeadsPackageZero(s.packages);
    hide Shape;
  }

  /** An empty counter has heard from all its members. */
  lemma EmptyCounter(s: State, g: nat, i: nat)
    requires Shape(s) && g < |s.nodes| && CounterLaw(s, g) && s.nodes[g].childNotReady == 0
    requires Counts(s, i, g) && ArrivalLaw(s, i)
    ensures Arrived(s, i) == Rearmed(s, g) + 1
  {
    PendingBounds(s, g);
  }

  lemma RearmKeepsCounter(s: State, i: nat, g: nat)
    requires Shape(s) && i < |s.packages| && OwnLaw(s, i) && s.stage[i] == Rearm
    requires g < |s.nodes| && CounterLaw(s, g) && forall x: nat | 0 < x < |s.packages| :: ArrivalLaw(s, x)
    ensures Shape(After(s, i)) && |After(s, i).nodes| == |s.nodes| && CounterLaw(After(s, i), g)
  {
    RearmCounts(s, i);
    AfterKeepsShape(s, i);
    var s', n := After(s, i), |s.packages|;
    if g == s.packages[i] {
      HaveChildIsMembers(s, g);
      forall x: nat | x < n ensures Member(s, g)(x) == Pending(s', g)(x) {
        if Counts(s, x, g) { EmptyCounter(s, g, x); }
      }
      SumEq(n, Member(s, g), Pending(s', g));
    } else {
      hide Shape, After, Arrived, Rearmed, Target, OwnLaw, ArrivalLaw;
      SumEq(n, Pending(s, g), Pending(s', g));
    }
  }

  lemma StepKeepsArrivals(s: State, i: nat)
    requires Laws(s) && i < |s.packages|
    ensures var s' := After(s, i); Shape(s') && s'.packages == s.packages && |s'.nodes| == |s.nodes|
    ensures forall x: nat | 0 < x < |s.packages| :: ArrivalLaw(After(s, i), x)
    ensures forall g: nat | g < |s.nodes| :: CounterLaw(After(s, i), g)
  {
    AfterKeepsShape(s, i);
    assert OwnLaw(s, i);
    var s' := After(s, i);
    if s.stage[i] == Arrive || s.stage[i] == Report {
      ArriveKeepsArrivals(s, i);
    } else if s.stage[i] == Rearm {
      RearmKeepsArrivals(s, i);
    } else {
      OthersKeepArrivals(s, i);
    }
  }

  lemma ArriveKeepsArrivals(s: State, i: nat)
    requires Laws(s) && i < |s.packages| && (s.stage[i] == Arrive || s.stage[i] == Report)
    ensures var s' := After(s, i); Shape(s') && s'.packages == s.packages && |s'.nodes| == |s.nodes|
    ensures forall x: nat | 0 < x < |s.packages| :: ArrivalLaw(After(s, i), x)
    ensures forall g: nat | g < |s.nodes| :: CounterLaw(After(s, i), g)
  {
    assert OwnLaw(s, i);
    ArriveCounts(s, i);
    AfterKeepsShape(s, i);
    DoneIsReleased(s, i);
    ReleasedIsRearmed(s, Target(s, i));
    assert ArrivalLaw(s, i) && Arrived(s, i) == Rearmed(s, Target(s, i));
    forall g: nat | g < |s.nodes| ensures CounterLaw(After(s, i), g) {
      if g == Target(s, i) { ArriveKeepsOwnCounter(s, i, g); } else { ArriveKeepsOtherCounter(s, i, g); }
    }
    hide After, Shape, Arrived, Rearmed, Target, OwnLaw, CounterLaw, WakeLaw, ParentLaw;
    forall x: nat | 0 < x < |s.packages| ensures ArrivalLaw(After(s, i), x) { assert ArrivalLaw(s, x); }
  }

  lemma RearmKeepsArrivals(s: State, i: nat)
    requires Laws(s) && i < |s.packages| && s.stage[i] == Rearm
    ensures var s' := After(s, i); Shape(s') && s'.packages == s.packages && |s'.nodes| == |s.nodes|
    ensures forall x: nat | 0 < x < |s.packages| :: ArrivalLaw(After(s, i), x)
    ensures forall g: nat | g < |s.nodes| :: CounterLaw(After(s, i), g)
  {
    assert OwnLaw(s, i);
    RearmCounts(s, i);
    AfterKeepsShape(s, i);
    forall g: nat | g < |s.nodes| ensures CounterLaw(After(s, i), g) { RearmKeepsCounter(s, i, g); }
    var mine := s.packages[i];
    assert CounterLaw(s, mine);
    forall x: nat | 0 < x < |s.packages| ensures ArrivalLaw(After(s, i), x) {
      assert ArrivalLaw(s, x);
      if Counts(s, x, mine) { EmptyCounter(s, mine, x); }
    }
  }

  lemma OthersKeepCounter(s: State, i: nat, g: nat)
    requires Shape(s) && i < |s.packages| && OwnLaw(s, i)
    requires s.stage[i] != Arrive && s.stage[i] != Report && s.stage[i] != Rearm
    requires g < |s.nodes| && CounterLaw(s, g)
    ensures Shape(After(s, i)) && |After(s, i).nodes| == |s.nodes| && CounterLaw(After(s, i), g)
  {
    ArrivalFrame(s, i);
    AfterKeepsShape(s, i);
    var s' := After(s, i);
    assert s'.stage[i] == Rearm ==> s.nodes[s.packages[i]].childNotReady == 0;
    hide After, Shape, Arrived, Rearmed, Target, OwnLaw, Sum;
    SumEq(|s.packages|, Pending(s, g), Pending(s', g));
  }

  lemma OthersKeepArrivals(s: State, i: nat)
    requires Laws(s) && i < |s.packages| && s.stage[i] != Arrive && s.stage[i] != Report && s.stage[i] != Rearm
    ensures var s' := After(s, i); Shape(s') && s'.packages == s.packages && |s'.nodes| == |s.nodes|
    ensures forall x: nat | 0 < x < |s.packages| :: ArrivalLaw(After(s, i), x)
    ensures forall g: nat | g < |s.nodes| :: CounterLaw(After(s, i), g)
  {
    assert OwnLaw(s, i);
    ArrivalFrame(s, i);
    AfterKeepsShape(s, i);
    hide After, Shape, Arrived, Rearmed, Target, OwnLaw, WakeLaw, ParentLaw, CounterLaw;
    forall g: nat | g < |s.nodes| ensures CounterLaw(After(s, i), g) { OthersKeepCounter(s, i, g); }
    forall x: nat | 0 < x < |s.packages| ensures ArrivalLaw(After(s, i), x) { assert ArrivalLaw(s, x); }
  }

  /** Only wake-ups, and followers leaving, touch what the wakeup laws speak of. */
  lemma WakeFrame(s: State, i: nat)
    requires Shape(s) && i < |s.packages| && OwnLaw(s, i) && !s.stage[i].Wake?
    ensures var s' := After(s, i); Shape(s') && s'.packages == s.packages && |s'.nodes| == |s.nodes|
    ensures forall g: nat | g < |s.nodes| ::
              var s' := After(s, i); Woken(s', g) == Woken(s, g) && s'.nodes[g].parentSense == s.nodes[g].parentSense
    ensures var s' := After(s, i);
            && (s'.stage[i].Wake? || s'.done[i] != s.done[i] ==>
                  i == 0 || s.nodes[s.packages[i]].parentSense == s.sense[i])
            && s'.done[i] == s.done[i] + One(s.stage[i] == Await && s'.stage[i] == Outside)
            && !(s'.stage[i].Wake? && s'.done[i] != s.done[i])
  {
    AfterKeepsShape(s, i);
    MasterLeadsPackageZero(s.packages);
    hide Shape;
  }

  /** What a wake-up does to the package it is meant for, and to the waker. */
  lemma WakeEffect(s: State, i: nat)
    requires Shape(s) && i < |s.packages| && OwnLaw(s, i) && s.stage[i].Wake?
    ensures var s' := After(s, i); Shape(s') && s'.packages == s.packages && |s'.nodes| == |s.nodes|
    ensures var s', c := After(s, i), s.stage[i].c;
            if c < 2 && (c == 0 || i == 0) then s'.stage[i] == Wake(c + 1) && s'.done[i] == s.done[i]
            else s'.stage[i] == Outside && s'.done[i] == s.done[i] + 1
    ensures forall g: nat | g < |s.nodes| ::
              var s', c := After(s, i), s.stage[i].c;
              s'.nodes[g].parentSense ==
                if g == (if c < 2 then BinaryChild(s.packages[i], c) else s.packages[i]) then s.sense[i]
                else s.nodes[g].parentSense
  {
    AfterKeepsShape(s, i);
    hide Shape, Leader, BinaryChild, Increment;
  }

  lemma WakeTarget(s: State, i: nat, g: nat)
    requires Shape(s) && i < |s.packages| && OwnLaw(s, i) && s.stage[i].Wake? && g < |s.nodes|
    ensures var c := s.stage[i].c;
            g == (if c < 2 then BinaryChild(s.packages[i], c) else s.packages[i])
            <==> if g == 0 then c == 2 else s.packages[i] == BinaryParent(g) && BinarySlot(g) == c
  {
    hide Dense, Leader, Pkgs, BinaryParent, BinarySlot, BinaryChild;
    MasterLeadsPackageZero(s.packages);
    BinaryTies(g, 0);
    if s.stage[i].c < 2 { BinaryChildIff(s.packages[i], s.stage[i].c, g); }
  }

  /** Is thread i's next wake-up meant for package g? */
  ghost predicate Wakes(s: State, i: nat, g: nat)
    requires i < |s.packages| && i < |s.stage| && s.stage[i].Wake?
  {
    if g == 0 then s.stage[i].c == 2 else s.packages[i] == BinaryParent(g) && BinarySlot(g) == s.stage[i].c
  }

  /** It carries the waker's sense there. */
  lemma WakeCarriesSense(s: State, i: nat, g: nat)
    requires Shape(s) && i < |s.packages| && OwnLaw(s, i) && s.stage[i].Wake? && g < |s.nodes|
    ensures var s' := After(s, i); Shape(s') && s'.packages == s.packages && |s'.nodes| == |s.nodes|
    ensures After(s, i).nodes[g].parentSense == if Wakes(s, i, g) then s.sense[i] else s.nodes[g].parentSense
  {
    hide Dense, Leader, Pkgs;
    WakeEffect(s, i);
    WakeTarget(s, i, g);
    hide After, BinaryParent, BinarySlot, BinaryChild;
  }

  /** Senses of neighbouring episodes differ, wrap-around or not. */
  lemma SenseTells(woken: nat, done: nat)
    requires done <= woken <= done + 1 && woken % WORD == (done + 1) % WORD
    ensures woken == done + 1
  {
  }

  lemma WakeUpKeepsWake(s: State, i: nat, x: nat)
    requires Laws(s) && i < |s.packages| && s.stage[i].Wake? && 0 < x < |s.packages|
    ensures var s' := After(s, i); Shape(s') && s'.packages == s.packages && WakeLaw(s', x)
  {
    assert OwnLaw(s, i) && WakeLaw(s, x);
    DoneIsReleased(s, i);
    ReleasedIsArrived(s, x);
    AfterKeepsShape(s, i);
    WakeEffect(s, i);
    hide After, Shape, Wakes, Woken, OwnLaw;
  }

  lemma StepKeepsWake(s: State, i: nat, x: nat)
    requires Laws(s) && i < |s.packages| && 0 < x < |s.packages|
    ensures var s' := After(s, i); Shape(s') && s'.packages == s.packages && WakeLaw(s', x)
  {
    if s.stage[i].Wake? {
      WakeUpKeepsWake(s, i, x);
    } else {
      var g := s.packages[x];
      assert OwnLaw(s, i) && WakeLaw(s, x) && ParentLaw(s, g);
      AfterKeepsShape(s, i);
      WakeFrame(s, i);
      if x == i && s.nodes[g].parentSense == s.sense[i] { SenseTells(Woken(s, g), s.done[i]); }
      hide After, Shape, Woken, OwnLaw, ParentLaw, Laws;
    }
  }

  lemma StepKeepsParent(s: State, i: nat, g: nat)
    requires Laws(s) && i < |s.packages| && g < |s.nodes|
    ensures var s' := After(s, i); Shape(s') && s'.packages == s.packages && |s'.nodes| == |s.nodes| && ParentLaw(s', g)
  {
    assert OwnLaw(s, i) && ParentLaw(s, g);
    if s.stage[i].Wake? {
      WakeCarriesSense(s, i, g);
    } else {
      WakeFrame(s, i);
    }
    hide After, Shape, Wakes, Woken, Laws;
  }

  lemma StepKeepsLaws(s: State, i: nat)
    requires Laws(s) && i < |s.packages|
    ensures Laws(After(s, i)) && After(s, i).packages == s.packages
  {
    AfterKeepsShape(s, i);
    StepKeepsArrivals(s, i);
    hide After, Shape, ArrivalLaw, CounterLaw, WakeLaw, ParentLaw, OwnLaw;
    forall x: nat | x < |s.packages| ensures OwnLaw(After(s, i), x) { StepKeepsOwn(s, i, x); }
    forall x: nat | 0 < x < |s.packages| ensures WakeLaw(After(s, i), x) { StepKeepsWake(s, i, x); }
    forall g: nat | g < |s.nodes| ensures ParentLaw(After(s, i), g) { StepKeepsParent(s, i, g); }
  }

  // ----- the accesses in plain numbers

  lemma WordSized(s: State)
    requires Laws(s)
    ensures forall g: nat | g < |s.nodes| :: s.nodes[g].childNotReady < 4294967296
    ensures forall i: nat | i < |s.sense| :: s.sense[i] < 4294967296
  {
    forall g: nat | g < |s.nodes| ensures s.nodes[g].childNotReady < 4294967296 {
      assert CounterLaw(s, g);
      PendingBounds(s, g);
    }
    forall i: nat | i < |s.sense| ensures s.sense[i] < 4294967296 { assert OwnLaw(s, i); }
  }

  lemma AccessWritesNodes(s: State, i: nat)
    requires Laws(s) && i < |s.packages|
    ensures |After(s, i).nodes| == |s.nodes|
    ensures forall y: nat | y < |s.nodes| ::
              && After(s, i).nodes[y].parentSense ==
                   (if s.stage[i].Wake? && y == (if s.stage[i].c < 2 then 2 * s.packages[i] + s.stage[i].c + 1 else s.packages[i]) then s.sense[i] else s.nodes[y].parentSense)
              && After(s, i).nodes[y].childNotReady ==
                   (if (s.stage[i] == Arrive && y == s.packages[i]) || (s.stage[i] == Report && 4 * y < s.packages[i] <= 4 * y + 4) then
                      if s.nodes[y].childNotReady == 0 then 4294967295 else s.nodes[y].childNotReady - 1
                    else if s.stage[i] == Rearm && y == s.packages[i] then HaveChild(s.packages, s.packages[i])
                    else s.nodes[y].childNotReady)
  {
    WordSized(s);
    AfterKeepsShape(s, i);
    assert OwnLaw(s, i);
    MasterLeadsPackageZero(s.packages);
    hide Laws, Dense, Leader, HaveChild;
    WordsWrap(s.sense[i]);
    WordsWrap(s.nodes[s.packages[i]].childNotReady);
    if s.packages[i] > 0 {
      QuadTies(s.packages[i], 0);
      WordsWrap(s.nodes[QuadParent(s.packages[i])].childNotReady);
    }
    hide Decrement, Increment;
  }

  lemma AccessMovesThread(s: State, i: nat)
    requires Laws(s) && i < |s.packages|
    ensures |After(s, i).sense| == |s.sense| && |After(s, i).stage| == |s.stage| && |After(s, i).done| == |s.done|
    ensures var leaves := (s.stage[i] == Await && s.nodes[s.packages[i]].parentSense == s.sense[i] && !Leader(s.packages, i)) || (s.stage[i].Wake? && s.stage[i].c > 0 && !(i == 0 && s.stage[i].c == 1));
            && After(s, i).sense == (if leaves then s.sense[i := if s.sense[i] == 4294967295 then 0 else s.sense[i] + 1] else s.sense)
            && After(s, i).done == (if leaves then s.done[i := s.done[i] + 1] else s.done)
            && After(s, i).stage == s.stage[i :=
                 if leaves then Outside else
                 match s.stage[i]
                 case Outside => if Leader(s.packages, i) then Gather else Arrive
                 case Arrive => Await
                 case Gather => if s.nodes[s.packages[i]].childNotReady == 0 then Rearm else Gather
                 case Rearm => if s.packages[i] == 0 then Wake(0) else Report
                 case Report => Await
                 case Await => if s.nodes[s.packages[i]].parentSense == s.sense[i] then Wake(0) else Await
                 case Wake(c) => Wake(c + 1)]
  {
    WordSized(s);
    assert OwnLaw(s, i);
    hide Laws, Dense, Leader, HaveChild, SetCounter;
    WordsWrap(s.sense[i]);
  }

  /** What an access writes, counter by counter and sense by sense, and where the thread is afterwards. */
  lemma AccessWrites(s: State, i: nat)
    requires Laws(s) && i < |s.packages|
    ensures |After(s, i).nodes| == |s.nodes| && |After(s, i).sense| == |s.sense| && |After(s, i).stage| == |s.stage| && |After(s, i).done| == |s.done|
    ensures forall y: nat | y < |s.nodes| ::
              && After(s, i).nodes[y].parentSense ==
                   (if s.stage[i].Wake? && y == (if s.stage[i].c < 2 then 2 * s.packages[i] + s.stage[i].c + 1 else s.packages[i]) then s.sense[i] else s.nodes[y].parentSense)
              && After(s, i).nodes[y].childNotReady ==
                   (if (s.stage[i] == Arrive && y == s.packages[i]) || (s.stage[i] == Report && 4 * y < s.packages[i] <= 4 * y + 4) then
                      if s.nodes[y].childNotReady == 0 then 4294967295 else s.nodes[y].childNotReady - 1
                    else if s.stage[i] == Rearm && y == s.packages[i] then HaveChild(s.packages, s.packages[i])
                    else s.nodes[y].childNotReady)
    ensures var leaves := (s.stage[i] == Await && s.nodes[s.packages[i]].parentSense == s.sense[i] && !Leader(s.packages, i)) || (s.stage[i].Wake? && s.stage[i].c > 0 && !(i == 0 && s.stage[i].c == 1));
            && After(s, i).sense == (if leaves then s.sense[i := if s.sense[i] == 4294967295 then 0 else s.sense[i] + 1] else s.sense)
            && After(s, i).done == (if leaves then s.done[i := s.done[i] + 1] else s.done)
            && After(s, i).stage == s.stage[i :=
                 if leaves then Outside else
                 match s.stage[i]
                 case Outside => if Leader(s.packages, i) then Gather else Arrive
                 case Arrive => Await
                 case Gather => if s.nodes[s.packages[i]].childNotReady == 0 then Rearm else Gather
                 case Rearm => if s.packages[i] == 0 then Wake(0) else Report
                 case Report => Await
                 case Await => if s.nodes[s.packages[i]].parentSense == s.sense[i] then Wake(0) else Await
                 case Wake(c) => Wake(c + 1)]
  {
    hide Laws, After;
    AccessWritesNodes(s, i);
    AccessMovesThread(s, i);
  }

  // ----- runs

  /** The state after the threads in the schedule have taken one step each, in that order. */
  function Execute(s: State, schedule: seq<nat>): (s': State)
    requires Shape(s) && forall k: nat | k < |schedule| :: schedule[k] < |s.packages|
    ensures Shape(s') && s'.packages == s.packages
  {
    if schedule == [] then s
    else
      var last := |schedule| - 1;
      var s1 := Execute(s, schedule[..last]);
      AfterKeepsShape(s1, schedule[last]);
      After(s1, schedule[last])
  }

  lemma NoSteps(s: State)
    requires Shape(s)
    ensures Execute(s, []) == s
  {
  }

  lemma {:induction false} ExecuteKeepsLaws(s: State, schedule: seq<nat>)
    requires Laws(s) && forall k: nat | k < |schedule| :: schedule[k] < |s.packages|
    ensures Laws(Execute(s, schedule))
  {
    assert Shape(s);
    hide Laws, After;
    if schedule != [] {
      var last := |schedule| - 1;
      ExecuteKeepsLaws(s, schedule[..last]);
      StepKeepsLaws(Execute(s, schedule[..last]), schedule[last]);
    }
  }

  lemma ExecuteNext(s: State, schedule: seq<nat>, k: nat)
    requires Laws(s) && k < |schedule| && forall m: nat | m < |schedule| :: schedule[m] < |s.packages|
    ensures Shape(s) && Laws(Execute(s, schedule[..k])) && Execute(s, schedule[..k]).packages == s.packages
    ensures Execute(s, schedule[..k + 1]) == After(Execute(s, schedule[..k]), schedule[k])
  {
    assert schedule[..k + 1][..k] == schedule[..k];
    ExecuteKeepsLaws(s, schedule[..k]);
  }

  /** Every thread is at most one episode behind what has been released. */
  lemma ReleasedIsEntered(s: State, j: nat)
    requires Laws(s) && j < |s.packages|
    ensures Released(s) <= Entered(s, j) && Released(s) <= s.done[j] + 1
  {
    if j > 0 { ReleasedIsArrived(s, j); }
  }

  /** In every run no thread leaves its k-th wait before every thread has entered its k-th, and no
      thread gets more than one episode ahead of another. */
  lemma BarrierIsSafe(s: State, schedule: seq<nat>, i: nat, j: nat)
    requires Initial(s) && (forall k: nat | k < |schedule| :: schedule[k] < |s.packages|)
    requires i < |s.packages| && j < |s.packages|
    ensures var s' := Execute(s, schedule);
            s'.done[i] <= Entered(s', j) && s'.done[i] <= s'.done[j] + 1
  {
    InitialKeepsLaws(s);
    ExecuteKeepsLaws(s, schedule);
    DoneIsReleased(Execute(s, schedule), i);
    ReleasedIsEntered(Execute(s, schedule), j);
  }

  /** A thread in wait whose loop condition says to go round again. */
  ghost predicate Spinning(s: State, i: nat)
    requires Shape(s) && i < |s.packages|
  {
    var g := s.packages[i];
    || (s.stage[i] == Gather && s.nodes[g].childNotReady != 0)
    || (s.stage[i] == Await && s.nodes[g].parentSense != s.sense[i])
  }

  ghost predicate CanMove(s: State, i: nat)
    requires Shape(s)
  {
    i < |s.packages| && s.stage[i] != Outside && !Spinning(s, i)
  }

  /** While nobody has been released, the leader of the highest package that has not reported finds
      its counter empty. */
  lemma {:induction false} SomeoneReports(s: State, e: nat, bound: nat) returns (i: nat)
    requires Laws(s) && 0 < bound <= |s.nodes|
    requires forall x: nat | x < |s.packages| :: s.done[x] == e && (s.stage[x] == Gather || s.stage[x] == Await)
    requires forall g: nat | bound <= g < |s.nodes| :: s.stage[LeaderOf(s, g)] == Await
    ensures CanMove(s, i)
  {
    var g := bound - 1;
    i := LeaderOf(s, g);
    if s.stage[i] == Await {
      assert i != 0 by { assert OwnLaw(s, i); }
      MasterLeadsPackageZero(s.packages);
      i := SomeoneReports(s, e, bound - 1);
    } else {
      assert CounterLaw(s, g);
      forall x: nat | x < |s.packages| ensures Pending(s, g)(x) == 0 {
        assert OwnLaw(s, x);
        if Counts(s, x, g) { MembersHaveReported(s, x, g); }
      }
      SumZero(|s.packages|, Pending(s, g));
    }
  }

  lemma MembersHaveReported(s: State, x: nat, g: nat)
    requires Shape(s) && g < |s.nodes| && Counts(s, x, g) && OwnLaw(s, x)
    requires s.stage[x] == Gather || s.stage[x] == Await
    requires forall k: nat | g < k < |s.nodes| :: s.stage[LeaderOf(s, k)] == Await
    ensures s.stage[x] == Await
  {
    MasterLeadsPackageZero(s.packages);
    if Leader(s.packages, x) {
      assert LeaderOf(s, s.packages[x]) == x;
    }
  }

  /** Once thread 0 has left, the topmost thread of the wakeup tree that has not is awake. */
  lemma {:induction false} SomeoneWakes(s: State, e: nat, late: nat) returns (i: nat)
    requires Laws(s) && late < |s.packages| && s.done[late] == e && s.done[0] == e + 1
    requires forall x: nat | x < |s.packages| :: Entered(s, x) >= e + 1
    ensures CanMove(s, i)
    decreases s.packages[late]
  {
    i := late;
    var g := s.packages[i];
    ReleasedIsArrived(s, i);
    assert WakeLaw(s, i) && OwnLaw(s, i) && ParentLaw(s, g);
    if Woken(s, g) == e {
      var l := LeaderOf(s, BinaryParent(g));
      assert Entered(s, l) >= e + 1;
      i := SomeoneWakes(s, e, l);
    }
  }

  lemma SomeoneMoves(s: State, k: nat, late: nat) returns (i: nat)
    requires Laws(s) && late < |s.packages| && s.done[late] < k
    requires forall x: nat | x < |s.packages| :: Entered(s, x) >= k
    ensures CanMove(s, i)
  {
    forall x: nat | x < |s.packages| ensures s.done[x] <= Released(s) <= s.done[late] + 1 {
      DoneIsReleased(s, x);
      ReleasedIsEntered(s, late);
    }
    assert Entered(s, 0) >= k;
    if s.stage[0].Wake? {
      i := 0;
    } else if s.done[0] == k {
      i := SomeoneWakes(s, k - 1, late);
    } else {
      forall x: nat | x < |s.packages| ensures s.done[x] == k - 1 && s.stage[x] != Outside { assert Entered(s, x) >= k; }
      if x: nat :| x < |s.packages| && s.stage[x] != Gather && s.stage[x] != Await {
        i := x;
      } else {
        i := SomeoneReports(s, k - 1, |s.nodes|);
      }
    }
  }

  /** Deadlock freedom: in every run, if all threads have entered their k-th wait and some thread has
      not left it, then some thread in wait is not spinning. */
  lemma NoDeadlock(s: State, schedule: seq<nat>, k: nat, late: nat) returns (i: nat)
    requires Initial(s) && (forall m: nat | m < |schedule| :: schedule[m] < |s.packages|) && late < |s.packages|
    requires forall x: nat | x < |s.packages| :: Entered(Execute(s, schedule), x) >= k
    requires Execute(s, schedule).done[late] < k
    ensures CanMove(Execute(s, schedule), i)
  {
    InitialKeepsLaws(s);
    ExecuteKeepsLaws(s, schedule);
    hide Laws, Initial;
    i := SomeoneMoves(Execute(s, schedule), k, late);
  }

  /** How far thread i has come through its waits. */
  ghost function Age(s: State, i: nat): int {
    if i >= |s.done| || i >= |s.stage| then 0
    else
      8 * s.done[i] +
      match s.stage[i]
      case Outside => 0
      case Arrive => 1
      case Gather => 1
      case Rearm => 2
      case Report => 3
      case Await => 4
      case Wake(c) => 5 + c
  }
  ghost function Ages(s: State): nat -> int { (i: nat) => Age(s, i) }

  lemma StepAges(s: State, i: nat)
    requires Laws(s) && i < |s.packages|
    ensures var n := |s.packages|;
            Sum(n, Ages(After(s, i))) >= Sum(n, Ages(s)) + One(!Spinning(s, i))
  {
    AfterKeepsShape(s, i);
    assert OwnLaw(s, i);
    var s' := After(s, i);
    assert Age(s', i) >= Age(s, i) + One(!Spinning(s, i)) by { hide Dense, Leader, HaveChild; }
    assert forall x: nat | x < |s.packages| && x != i :: Age(s', x) == Age(s, x);
    hide After, Age, Shape, Laws;
    SumPoint(|s.packages|, Ages(s), Ages(s'), i, Age(s', i) - Age(s, i));
  }

  /** The steps of a schedule that are not another turn of a spin loop. */
  ghost function Moves(s: State, schedule: seq<nat>): nat
    requires Shape(s) && forall k: nat | k < |schedule| :: schedule[k] < |s.packages|
  {
    if schedule == [] then 0
    else
      var last := |schedule| - 1;
      Moves(s, schedule[..last]) + One(!Spinning(Execute(s, schedule[..last]), schedule[last]))
  }

  lemma {:induction false} MovesAge(s: State, schedule: seq<nat>)
    requires Laws(s) && forall k: nat | k < |schedule| :: schedule[k] < |s.packages|
    ensures Sum(|s.packages|, Ages(Execute(s, schedule))) >= Sum(|s.packages|, Ages(s)) + Moves(s, schedule)
  {
    assert Shape(s);
    hide Laws, After;
    if schedule != [] {
      var last := |schedule| - 1;
      MovesAge(s, schedule[..last]);
      ExecuteKeepsLaws(s, schedule[..last]);
      StepAges(Execute(s, schedule[..last]), schedule[last]);
    }
  }

  /** Nor can the threads go on forever without finishing: as long as nobody enters wait for the
      (k+1)-st time, they take at most 8 k steps per thread apart from spinning. */
  lemma EpisodesEnd(s: State, schedule: seq<nat>, k: nat)
    requires Initial(s) && (forall m: nat | m < |schedule| :: schedule[m] < |s.packages|)
    requires forall x: nat | x < |s.packages| :: Entered(Execute(s, schedule), x) <= k
    ensures Moves(s, schedule) <= Times(|s.packages|, 8 * k)
  {
    var s', n := Execute(s, schedule), |s.packages|;
    InitialKeepsLaws(s);
    MovesAge(s, schedule);
    ExecuteKeepsLaws(s, schedule);
    SumZero(n, Ages(s));
    forall x: nat | x < n ensures Age(s', x) <= 8 * k { assert Entered(s', x) <= k && OwnLaw(s', x); }
    SumAtMost(n, Ages(s'), 8 * k);
  }

  // ----- the code

  class TopoBarrier {
    const packages: seq<nat>
    var nodes: seq<PackageNode>
    var sense: seq<nat>
    var stage: seq<Stage>
    var done: seq<nat>

    function Snapshot(): State
      reads this
    {
      State(packages, nodes, sense, stage, done)
    }

    /** packages[i] is the package of thread i, for the threads taking part. */
    constructor (packages: seq<nat>)
      requires 0 < |packages| < WORD && Dense(packages)
      ensures this.packages == packages && Initial(Snapshot())
    {
      this.packages := packages;
      nodes, sense, stage, done := [], [], [], [];
      new;
      Reinit();
    }

    method Reinit()
      requires 0 < |packages| < WORD && Dense(packages)
      modifies this
      ensures Initial(Snapshot())
      ensures |sense| == |packages| && forall i: nat | i < |packages| :: sense[i] == 1
      ensures forall g: nat | g < |nodes| :: nodes[g].parentSense == 0 && nodes[g].childNotReady == HaveChild(packages, g)
    {
      var maxPackage := MaxPackages(packages);
      var pkgs := maxPackage[|packages| - 1] + 1;
      nodes := [];
      var i := 0;
      while i < pkgs
        invariant 0 <= i == |nodes| <= pkgs
        invariant forall g: nat | g < i :: nodes[g] == PackageNode(HaveChild(packages, g), 0)
      {
        var havechild := CountChildren(pkgs, i);
        nodes := nodes + [PackageNode(havechild, 0)];
        i := i + 1;
      }
      sense := seq(|packages|, _ => 1);
      stage := seq(|packages|, _ => Outside);
      done := seq(|packages|, _ => 0);
    }

    method CountChildren(pkgs: nat, g: nat) returns (havechild: nat)
      requires pkgs == Pkgs(packages, |packages|)
      ensures havechild == HaveChild(packages, g)
      ensures 0 < |packages| < WORD && Dense(packages) && g < pkgs ==>
                havechild == |set i: nat | 0 < i < |packages| && (if Leader(packages, i) then 4 * g < packages[i] <= 4 * g + 4 else packages[i] == g)|
    {
      if 0 < |packages| < WORD && Dense(packages) && g < pkgs { HaveChildCounts(packages, g); }
      hide HaveChild, Dense, Leader;
      havechild := 0;
      var j := 0;
      while j < 4
        invariant 0 <= j <= 4 && havechild == Children(pkgs, g, j)
      {
        if 4 * g + j + 1 < pkgs {
          havechild := havechild + 1;
        }
        j := j + 1;
      }
      j := 0;
      while j < |packages|
        invariant 0 <= j <= |packages| && havechild == Children(pkgs, g, 4) + Followers(packages, j, g)
      {
        if packages[j] == g && !Leader(packages, j) {
          havechild := havechild + 1;
        }
        j := j + 1;
      }
    }

    /** The next shared access of thread i in wait. */
    method Step(i: nat)
      requires Laws(Snapshot()) && i < |packages|
      modifies this
      ensures Snapshot() == After(old(Snapshot()), i)
      ensures |nodes| == |old(nodes)| && |sense| == |old(sense)| && |stage| == |old(stage)| && |done| == |old(done)|
      ensures forall y: nat | y < |old(nodes)| ::
                && nodes[y].parentSense ==
                     (if old(stage)[i].Wake? && y == (if old(stage)[i].c < 2 then 2 * packages[i] + old(stage)[i].c + 1 else packages[i]) then old(sense)[i] else old(nodes)[y].parentSense)
                && nodes[y].childNotReady ==
                     (if (old(stage)[i] == Arrive && y == packages[i]) || (old(stage)[i] == Report && 4 * y < packages[i] <= 4 * y + 4) then
                        if old(nodes)[y].childNotReady == 0 then 4294967295 else old(nodes)[y].childNotReady - 1
                      else if old(stage)[i] == Rearm && y == packages[i] then HaveChild(packages, packages[i])
                      else old(nodes)[y].childNotReady)
      ensures var leaves := (old(stage)[i] == Await && old(nodes)[packages[i]].parentSense == old(sense)[i] && !Leader(packages, i)) || (old(stage)[i].Wake? && old(stage)[i].c > 0 && !(i == 0 && old(stage)[i].c == 1));
              && sense == (if leaves then old(sense)[i := if old(sense)[i] == 4294967295 then 0 else old(sense)[i] + 1] else old(sense))
              && done == (if leaves then old(done)[i := old(done)[i] + 1] else old(done))
              && stage == old(stage)[i :=
                   if leaves then Outside else
                   match old(stage)[i]
                   case Outside => if Leader(packages, i) then Gather else Arrive
                   case Arrive => Await
                   case Gather => if old(nodes)[packages[i]].childNotReady == 0 then Rearm else Gather
                   case Rearm => if packages[i] == 0 then Wake(0) else Report
                   case Report => Await
                   case Await => if old(nodes)[packages[i]].parentSense == old(sense)[i] then Wake(0) else Await
                   case Wake(c) => Wake(c + 1)]
    {
      ghost var was := Snapshot();
      Access(i);
      hide After, Laws;
      AccessWrites(was, i);
    }

    method Access(i: nat)
      requires Laws(Snapshot()) && i < |packages|
      modifies this
      ensures Snapshot() == After(old(Snapshot()), i)
    {
      var g, leader := packages[i], Leader(packages, i);
      assert OwnLaw(Snapshot(), i);
      MasterLeadsPackageZero(packages);
      hide Laws, Dense, Leader, HaveChild;
      match stage[i]
      case Outside =>
        stage := stage[i := if leader then Gather else Arrive];
      case Arrive =>
        FetchAndSub(g);
        stage := stage[i := Await];
      case Gather =>
        if nodes[g].childNotReady == 0 {
          stage := stage[i := Rearm];
        }
      case Rearm =>
        var havechild := CountChildren(|nodes|, g);
        nodes := nodes[g := nodes[g].(childNotReady := havechild)];
        stage := stage[i := if g != 0 then Report else Wake(0)];
      case Report =>
        FetchAndSub((g - 1) / 4);
        stage := stage[i := Await];
      case Await =>
        if nodes[g].parentSense == sense[i] {
          if leader {
            stage := stage[i := Wake(0)];
          } else {
            Finish(i);
          }
        }
      case Wake(c) =>
        var k := if c < 2 then 2 * g + c + 1 else g;
        if k < |nodes| {
          nodes := nodes[k := nodes[k].(parentSense := sense[i])];
        }
        if c == 0 || (c == 1 && i == 0) {
          stage := stage[i := Wake(c + 1)];
        } else {
          Finish(i);
        }
    }

    method FetchAndSub(g: nat)
      requires g < |nodes|
      modifies `nodes
      ensures nodes == old(nodes)[g := old(nodes)[g].(childNotReady := Decrement(old(nodes)[g].childNotReady))]
    {
      nodes := nodes[g := nodes[g].(childNotReady := (nodes[g].childNotReady + WORD - 1) % WORD)];
    }

    method Finish(i: nat)
      requires i < |sense| && i < |stage| && i < |done|
      modifies `sense, `stage, `done
      ensures Snapshot() == Leave(old(Snapshot()), i)
    {
      sense := sense[i := (sense[i] + 1) % WORD];
      stage := stage[i := Outside];
      done := done[i := done[i] + 1];
    }

    /** Any interleaving of the waits of all threads. */
    method Run(schedule: seq<nat>)
      requires Initial(Snapshot()) && forall k: nat | k < |schedule| :: schedule[k] < |packages|
      modifies this
      ensures Snapshot() == Execute(old(Snapshot()), schedule) && Shape(Snapshot())
      ensures forall i: nat, j: nat | i < |packages| && j < |packages| ::
                done[i] <= Entered(Snapshot(), j) && done[i] <= done[j] + 1
    {
      ghost var start := Snapshot();
      assert Shape(start);
      hide Initial, Laws, After, Execute;
      InitialKeepsLaws(start);
      assert Execute(start, schedule[..0]) == start by { assert schedule[..0] == []; NoSteps(start); }
      var k := 0;
      while k < |schedule|
        invariant 0 <= k <= |schedule| && Laws(start) && Shape(start) && start.packages == packages
        invariant Snapshot() == Execute(start, schedule[..k])
      {
        hide Initial, Laws, After, Shape, Execute;
        ExecuteNext(start, schedule, k);
        Step(schedule[k]);
        k := k + 1;
      }
      assert schedule[..k] == schedule;
      forall i: nat, j: nat | i < |packages| && j < |packages|
        ensures done[i] <= Entered(Snapshot(), j) && done[i] <= done[j] + 1
      {
        BarrierIsSafe(start, schedule, i, j);
      }
    }
  }
}
