/** Epochs: the master numbers the circulations of the token, the number travels with it, and threads
    that have not seen the token lately lag behind. */
module RingEpochs {
  import opened RingTermination
  import opened Waves

  /** The master answers the token: every such call, detection included, but the first starts a new epoch. */
  ghost predicate MasterCall(r: Ring, r': Ring) {
    Call(r, r', 0) && r.data[0].hasToken
  }

  ghost function MasterCalls(t: seq<Ring>, k: nat): nat
    requires k < |t|
  {
    if k == 0 then 0 else MasterCalls(t, k - 1) + if MasterCall(t[k - 1], t[k]) then 1 else 0
  }

  ghost predicate EpochLaws(r: Ring, calls: nat) {
    && RingShape(r)
    && r.data[0].first == (calls == 0) && r.data[0].epoch == (if calls == 0 then 0 else calls - 1)
    && (forall i: nat | i < |r.data| :: r.data[i].epoch <= r.data[0].epoch)
    && (forall i: nat | i < |r.data| && r.data[i].hasToken :: r.data[i].epoch == r.data[0].epoch)
    && (forall i: nat | i < |r.data| && r.passing[i].Colour? :: r.passing[i].epoch == r.data[0].epoch)
    && (forall i: nat | i < |r.data| && r.passing[i] == Flag :: r.data[Next(r, i)].epoch == r.data[0].epoch)
  }

  ghost predicate NoEpochFalls(r: Ring, r': Ring) {
    |r'.data| == |r.data| && forall i: nat | i < |r.data| :: r.data[i].epoch <= r'.data[i].epoch
  }

  lemma CallKeepsEpochs(r: Ring, r': Ring, p: nat, calls: nat, i: nat)
    requires EpochLaws(r, calls) && TokenAt(r, p) && Call(r, r', i)
    ensures EpochLaws(r', if i == 0 && r.data[0].hasToken then calls + 1 else calls) && NoEpochFalls(r, r')
  {
  }

  lemma WritesKeepEpochs(r: Ring, r': Ring, calls: nat, i: nat)
    requires EpochLaws(r, calls) && (WriteColour(r, r', i) || RaiseFlag(r, r', i))
    ensures EpochLaws(r', calls) && NoEpochFalls(r, r')
  {
  }

  lemma StepKeepsEpochs(r: Ring, r': Ring, p: nat, calls: nat)
    requires EpochLaws(r, calls) && TokenAt(r, p) && RingStep(r, r')
    ensures EpochLaws(r', calls + if MasterCall(r, r') then 1 else 0) && NoEpochFalls(r, r')
  {
    if MasterCall(r, r') {
      CallKeepsEpochs(r, r', p, calls, 0);
    } else if i: nat :| Call(r, r', i) {
      CallKeepsEpochs(r, r', p, calls, i);
    } else if i: nat :| WriteColour(r, r', i) || RaiseFlag(r, r', i) {
      WritesKeepEpochs(r, r', calls, i);
    }
  }

  lemma {:induction false} RunKeepsEpochs(t: seq<Ring>, k: nat)
    requires Run(t) && k < |t|
    ensures EpochLaws(t[k], MasterCalls(t, k))
    ensures k > 0 ==> NoEpochFalls(t[k - 1], t[k])
  {
    if k > 0 {
      RunKeepsEpochs(t, k - 1);
      var p := TokenPosition(t, k - 1);
      assert RingStep(t[k - 1], t[k - 1 + 1]);
      StepKeepsEpochs(t[k - 1], t[k], p, MasterCalls(t, k - 1));
    }
  }

  /** The master's epoch is the number of its token calls so far, less one, and 0 before the first. */
  lemma MasterEpochCounts(t: seq<Ring>, k: nat)
    requires Run(t) && k < |t|
    ensures RingShape(t[k])
    ensures t[k].data[0].epoch == if MasterCalls(t, k) == 0 then 0 else MasterCalls(t, k) - 1
  {
    RunKeepsEpochs(t, k);
  }

  /** A thread that has the token, and one about to get it, is in the master's epoch; no thread is ahead. */
  lemma TokenCarriesEpoch(t: seq<Ring>, k: nat, i: nat)
    requires Run(t) && k < |t| && i < |t[k].data|
    ensures RingShape(t[k]) && t[k].data[i].epoch <= t[k].data[0].epoch
    ensures t[k].data[i].hasToken ==> t[k].data[i].epoch == t[k].data[0].epoch
    ensures k + 1 < |t| && TakesToken(t[k], t[k + 1], i) && i != 0 ==>
              t[k].data[i].epoch == t[k].data[0].epoch && i < |t[k + 1].data| && t[k + 1].data[i].epoch == t[k].data[0].epoch
    ensures t[k].passing[i] == Flag ==> t[k].data[(i + 1) % |t[k].data|].epoch == t[k].data[0].epoch
  {
    RunKeepsEpochs(t, k);
  }

  /** No thread's epoch ever falls. */
  lemma {:induction false} EpochsNeverFall(t: seq<Ring>, k: nat, later: nat, i: nat)
    requires Run(t) && k <= later < |t| && i < |t[k].data|
    ensures i < |t[later].data| && t[k].data[i].epoch <= t[later].data[i].epoch
    decreases later
  {
    if k < later {
      EpochsNeverFall(t, k, later - 1, i);
      RunKeepsEpochs(t, later);
    }
  }
}
