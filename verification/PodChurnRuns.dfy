/**
  What holds of every run of the batch orchestrator: for every interleaving of the goroutines and
  every pattern of failures.
*/
module PodChurnRuns {
  import opened PodChurn
  import opened Sets

  /** One run of the program: the states it passes through under a sequence of events. */
  ghost predicate IsRun(c: Config, states: seq<State>, events: seq<Event>) {
    && |states| == |events| + 1
    && states[0] == Init()
    && forall i :: 0 <= i < |events| ==>
         Enabled(c, states[i], events[i]) && states[i + 1] == Step(c, states[i], events[i])
  }

  lemma {:induction false} StateInv(c: Config, states: seq<State>, events: seq<Event>, i: nat)
    requires IsRun(c, states, events) && i < |states|
    ensures Inv(c, states[i])
  {
    if i == 0 {
      InvInit(c);
    } else {
      StateInv(c, states, events, i - 1);
      InvStep(c, states[i - 1], events[i - 1]);
    }
  }

  lemma RunInv(c: Config, states: seq<State>, events: seq<Event>)
    requires IsRun(c, states, events)
    ensures forall s :: s in states ==> Inv(c, s)
  {
    forall i | 0 <= i < |states|
      ensures Inv(c, states[i])
    {
      StateInv(c, states, events, i);
    }
  }

  lemma RunExtend(c: Config, states: seq<State>, events: seq<Event>, e: Event)
    requires IsRun(c, states, events) && Enabled(c, states[|events|], e)
    ensures IsRun(c, states + [Step(c, states[|events|], e)], events + [e])
  {
  }

  // ---------------------------------------------------------------- PVC indices

  lemma {:induction false} Apart(batch: nat, k: nat, k': nat)
    requires k < k'
    ensures k * batch + batch <= k' * batch
    decreases k'
  {
    if k + 1 < k' {
      Apart(batch, k, k' - 1);
    }
  }

  lemma MixedRadix(batch: nat, k: nat, n: nat, k': nat, n': nat)
    requires n < batch && n' < batch && k * batch + n == k' * batch + n'
    ensures k == k' && n == n'
  {
    if k < k' {
      Apart(batch, k, k');
    } else if k' < k {
      Apart(batch, k', k);
    }
  }

  lemma IndexInRange(c: Config, k: nat, n: nat)
    requires c.Accepted() && n < c.batch && (k == 0 || k < c.Batches())
    ensures 0 <= k * c.batch + n < (if c.total > 0 then c.total else c.batch)
  {
    assert c.total == c.Batches() * c.batch;
    if c.Batches() > k {
      Apart(c.batch, k, c.Batches());
    }
  }

  /** No PVC index is ever claimed twice, and no pod is created twice. */
  lemma ClaimedAtMostOnce(c: Config, states: seq<State>, events: seq<Event>, s: State)
    requires IsRun(c, states, events) && s in states
    ensures s.log.creations == |s.log.claimed|
    ensures forall p, q :: p in s.log.claimed && q in s.log.claimed && s.log.claimed[p] == s.log.claimed[q] ==> p == q
    ensures forall p :: p in s.log.claimed ==> 0 <= s.log.claimed[p] < (if c.total > 0 then c.total else c.batch)
    ensures forall p :: p in s.log.claimed ==> p.name.Uuid? && s.log.claimed[p] == p.name.batch * c.batch + p.n
    ensures forall p :: p in s.cluster.pods ==> p in s.log.claimed && s.cluster.pods[p] == s.log.claimed[p]
  {
    RunInv(c, states, events);
    forall p, q | p in s.log.claimed && q in s.log.claimed && s.log.claimed[p] == s.log.claimed[q]
      ensures p == q
    {
      MixedRadix(c.batch, p.name.batch, p.n, q.name.batch, q.n);
    }
    forall p | p in s.log.claimed
      ensures 0 <= s.log.claimed[p] < (if c.total > 0 then c.total else c.batch)
    {
      IndexInRange(c, p.name.batch, p.n);
    }
  }

  lemma BatchOf(c: Config, x: nat)
    requires c.Accepted() && x < c.total
    ensures 0 <= x / c.batch < c.Batches() && x / c.batch * c.batch + x % c.batch == x
  {
  }

  lemma ClaimOf(c: Config, s: State, x: nat)
    requires Inv(c, s) && Completed(s) && x < c.total
    ensures var p := Pod(Uuid(x / c.batch), x % c.batch); p in s.log.claimed && s.log.claimed[p] == x
  {
    BatchOf(c, x);
    var k, n := x / c.batch, x % c.batch;
    assert k <= s.b && n < c.batch;
    assert k < s.b ==> Pod(Uuid(k), n) in s.log.claimed;
  }

  /** A run past the batch loop has claimed every PVC it created, even if operations failed on the way. */
  lemma CompletedClaimsAll(c: Config, states: seq<State>, events: seq<Event>, s: State)
    requires IsRun(c, states, events) && s in states && Completed(s)
    ensures forall x :: x in s.log.claimed.Values <==> 0 <= x < c.total
  {
    RunInv(c, states, events);
    ClaimedAtMostOnce(c, states, events, s);
    CompletedIsPositive(c, s);
    forall x | 0 <= x < c.total
      ensures x in s.log.claimed.Values
    {
      ClaimOf(c, s, x);
    }
  }

  lemma CompletedIsPositive(c: Config, s: State)
    requires Inv(c, s) && Completed(s)
    ensures c.total > 0
  {
  }

  // ---------------------------------------------------------------- deletions

  /**
    On every return that is not a failure before the first batch, each PVC and each pod of each
    started batch has been deleted exactly once; an early return deletes nothing.
  */
  lemma DeletedExactlyOnce(c: Config, states: seq<State>, events: seq<Event>, s: State)
    requires IsRun(c, states, events) && s in states && s.phase.Returned?
    ensures s.phase.exit.Early? ==>
              s.log.podDeletes == multiset{} && s.log.pvcDeletes == multiset{} && s.log.claimed == map[]
    ensures !s.phase.exit.Early? ==>
              && (forall i: nat :: s.log.pvcDeletes[i] == if i < c.total then 1 else 0)
              && (var last := if s.load.Loaded? then Uuid(s.b) else Unnamed;
                  forall p :: s.log.podDeletes[p] ==
                    if p.n < c.batch && (p.name == last || (p.name.Uuid? && p.name.batch < s.b)) then 1 else 0)
              && (forall p :: p in s.log.claimed ==> s.log.podDeletes[p] == 1)
  {
    RunInv(c, states, events);
  }

  // ---------------------------------------------------------------- result

  /** nil is returned exactly when no operation failed, and then nothing the run created is left. */
  lemma NilIffNothingFailed(c: Config, states: seq<State>, events: seq<Event>, s: State)
    requires IsRun(c, states, events) && s in states && s.phase.Returned?
    ensures s.phase.ok <==> s.log.sound
    ensures s.phase.ok ==> s.cluster.pods == map[] && s.cluster.pvcs == {} && s.phase.exit.Normal?
    ensures s.phase.ok ==> c.batch > 0 && c.total % c.batch == 0 && c.total > 0
  {
    RunInv(c, states, events);
    if s.phase.ok {
      assert forall p :: p !in s.cluster.pods;
    }
  }

  /** With nothing to mount a run has no PVC at any time, and may create a pod all the same. */
  lemma FirstBatchWithoutPvcs(c: Config) returns (states: seq<State>, events: seq<Event>)
    requires c.batch > 0 && c.total % c.batch == 0 && c.total <= 0
    ensures IsRun(c, states, events) && states[|events|].log.creations == 1 && |states[|events|].cluster.pods| == 1
    ensures forall s :: s in states ==> s.cluster.pvcs == {}
  {
    states, events := [Init()], [];
    for i := 0 to 4
      invariant |events| == i && IsRun(c, states, events)
      invariant var s := states[i];
                if i == 0 then s == Init()
                else if i == 1 then s == Init().(phase := CreatingPvcs(0))
                else if i == 2 then s == Init().(phase := Batch)
                else if i == 3 then s == Init().(phase := Batch, load := Loaded, creators := Fresh(c.batch))
                else s.log.creations == 1 && s.cluster.pods == map[Pod(Uuid(0), 0) := 0]
    {
      var e := if i == 0 then Head(Enter(true))
               else if i == 1 then Head(StartFirstBatch)
               else if i == 2 then Create(LoadApp(true))
               else Create(CreateCall(0, true, true));
      RunExtend(c, states, events, e);
      states, events := states + [Step(c, states[i], e)], events + [e];
    }
    RunInv(c, states, events);
    forall s | s in states
      ensures s.cluster.pvcs == {}
    {
      assert forall x :: x in s.cluster.pvcs ==> x < c.Pvcs();
    }
  }

  // ---------------------------------------------------------------- the number of failures

  /** The operation of this step failed. */
  predicate Failed(e: Event) {
    match e
    case Head(h) => (h.Enter? && !h.templateOk) || (h.CreatePvc? && !h.ok)
    case Create(w) => !w.ok
    case Delete(d) => !d.ok
    case Loop(l) => l.WaitPod? && !l.ok
    case Tail(t) => t.DeletePvc? && !t.ok
  }

  ghost function FailedUpTo(events: seq<Event>, i: nat): nat
    requires i <= |events|
  {
    if i == 0 then 0 else FailedUpTo(events, i - 1) + if Failed(events[i - 1]) then 1 else 0
  }

  /** Failures that are in error slots and not yet in allErrors. */
  function Pending(s: State): nat {
    match s.phase
    case Batch => ResultFailed(s) + Failures(s.deleters)
    case Deleting(_) => Failures(s.deleters)
    case _ => 0
  }

  /** Cleanup and early exits do not count; everything else does. */
  ghost predicate Tally(s: State, n: nat) {
    var exits := s.phase.Deleting? || s.phase.DeletingPvcs? || s.phase.Returned?;
    (exits && !s.phase.exit.Normal?) || n == s.errors + Pending(s)
  }

  lemma WorkersTally(c: Config, s: State, e: Event, n: nat)
    requires Shape(c, s) && Enabled(c, s, e) && (e.Create? || e.Delete?) && Tally(s, n)
    ensures Tally(Step(c, s, e), n + if Failed(e) then 1 else 0)
  {
    if e.Delete? {
      FailuresUpdate(s.deleters, e.d.n, StepDelete(s, e.d).deleters[e.d.n]);
    } else if e.w.LoadApp? {
      FailuresNone(StepCreate(c, s, e.w).creators);
    } else {
      FailuresUpdate(s.creators, e.w.n, StepCreate(c, s, e.w).creators[e.w.n]);
    }
  }

  lemma TallyStep(c: Config, s: State, e: Event, n: nat)
    requires Shape(c, s) && Enabled(c, s, e) && Tally(s, n)
    ensures Tally(Step(c, s, e), n + if Failed(e) then 1 else 0)
  {
    if e.Create? || e.Delete? {
      WorkersTally(c, s, e, n);
    } else if e.Loop? {
      FailuresNone(StepLoop(c, s, e.l).deleters);
    }
  }

  lemma {:induction false} RunTally(c: Config, states: seq<State>, events: seq<Event>, i: nat)
    requires IsRun(c, states, events) && i < |states|
    ensures Tally(states[i], FailedUpTo(events, i))
  {
    if i > 0 {
      RunTally(c, states, events, i - 1);
      StateInv(c, states, events, i - 1);
      TallyStep(c, states[i - 1], events[i - 1], FailedUpTo(events, i - 1));
    }
  }

  /** The number that an error past the batch loop reports is the number of operations that failed in the run. */
  lemma ErrorsCounted(c: Config, states: seq<State>, events: seq<Event>, i: nat)
    requires IsRun(c, states, events) && i < |states|
    requires states[i].phase.Returned? && states[i].phase.exit.Normal?
    ensures states[i].errors == FailedUpTo(events, i)
  {
    RunTally(c, states, events, i);
  }

  // ---------------------------------------------------------------- live pods

  /** Pods of batch k. */
  ghost function Slots(k: nat, m: nat): set<Pod> {
    set n: nat | n < m :: Pod(Uuid(k), n)
  }

  lemma {:induction false} SlotCount(k: nat, m: nat)
    ensures |Slots(k, m)| == m
  {
    if m > 0 {
      SlotCount(k, m - 1);
      assert Slots(k, m) == Slots(k, m - 1) + {Pod(Uuid(k), m - 1)};
    } else {
      assert Slots(k, m) == {};
    }
  }

  /** As long as no pod deletion has failed, at most two batches of pods are alive at any step. */
  lemma LivePodsBounded(c: Config, states: seq<State>, events: seq<Event>, s: State)
    requires IsRun(c, states, events) && s in states && s.log.deletesOk
    ensures s.cluster.pods == map[] || |s.cluster.pods| <= 2 * c.batch
  {
    RunInv(c, states, events);
    if s.cluster.pods != map[] {
      var previous := Slots(s.deleting, c.batch);
      var current := Slots(s.b, c.batch);
      assert s.cluster.pods.Keys <= previous + current;
      SubsetSize(s.cluster.pods.Keys, previous + current);
      SlotCount(s.deleting, c.batch);
      SlotCount(s.b, c.batch);
    }
  }

  /** If nothing has failed, exactly the pods of the last batch are alive at each head of the batch loop. */
  lemma LivePodsAtLoopHead(c: Config, states: seq<State>, events: seq<Event>, s: State)
    requires IsRun(c, states, events) && s in states && s.log.sound && s.phase.Waiting? && s.phase.i == c.batch
    ensures s.cluster.pods.Keys == Slots(s.b, c.batch) && |s.cluster.pods| == c.batch
  {
    RunInv(c, states, events);
    SlotCount(s.b, c.batch);
    assert s.cluster.pods.Keys == Slots(s.b, c.batch);
  }
}
