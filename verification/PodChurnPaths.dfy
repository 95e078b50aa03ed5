/**
  Which way a run of the batch orchestrator goes: when it takes an early exit, when it goes on to
  another batch, and how many pods it can have alive.
*/
module PodChurnPaths {
  import opened PodChurn
  import opened PodChurnRuns
  import opened PodChurnProgram

  // ---------------------------------------------------------------- the way to cleanup

  /** A failure after which the run must clean up: a first batch not created, or a pod not running. */
  predicate Fatal(s: State, e: Event) {
    || (e.Create? && !e.w.ok && s.b == 0)
    || (e.Loop? && e.l.WaitPod? && !e.l.ok)
  }

  /** Cleanup has begun, or will begin when the workers of the first batch are done. */
  ghost predicate Doomed(s: State) {
    || (s.phase.Batch? && s.b == 0 &&
        (s.load.LoadFailed? || exists n :: 0 <= n < |s.creators| && s.creators[n] == Done(false)))
    || (s.phase.Deleting? && s.phase.exit.Cleanup?)
    || (s.phase.DeletingPvcs? && s.phase.exit.Cleanup?)
    || (s.phase.Returned? && s.phase.exit.Cleanup?)
  }

  lemma CreateDooms(c: Config, s: State, e: CreateEvent)
    requires Shape(c, s) && CanCreate(c, s, e)
    ensures Doomed(StepCreate(c, s, e)) <==> Doomed(s) || (!e.ok && s.b == 0)
  {
    var s' := StepCreate(c, s, e);
    if !e.LoadApp? {
      assert s'.creators[e.n] == Done(false) <==> !e.ok;
      assert forall n :: 0 <= n < |s.creators| && n != e.n ==> s'.creators[n] == s.creators[n];
    }
  }

  lemma DoomedStep(c: Config, s: State, e: Event)
    requires Shape(c, s) && Enabled(c, s, e)
    ensures Doomed(Step(c, s, e)) <==> Doomed(s) || Fatal(s, e)
    ensures Doomed(s) ==> Step(c, s, e).b == s.b
  {
    if e.Create? {
      CreateDooms(c, s, e.w);
    } else if e.Loop? && e.l.Join? {
      FailuresNone(s.creators);
    }
  }

  ghost predicate FatalBefore(states: seq<State>, events: seq<Event>, i: nat)
    requires |states| == |events| + 1 && i < |states|
  {
    exists k :: 0 <= k < i && Fatal(states[k], events[k])
  }

  lemma FatalSoFar(states: seq<State>, events: seq<Event>, i: nat)
    requires |states| == |events| + 1 && 0 < i < |states|
    ensures FatalBefore(states, events, i) <==>
            FatalBefore(states, events, i - 1) || Fatal(states[i - 1], events[i - 1])
  {
  }

  /** A state is doomed exactly if a fatal step came before it. */
  lemma {:induction false} DoomedIff(c: Config, states: seq<State>, events: seq<Event>, i: nat)
    requires IsRun(c, states, events) && i < |states|
    ensures Doomed(states[i]) <==> FatalBefore(states, events, i)
  {
    if i > 0 {
      DoomedIff(c, states, events, i - 1);
      FatalSoFar(states, events, i);
      DoomedNext(c, states, events, i - 1);
    }
  }

  lemma DoomedNext(c: Config, states: seq<State>, events: seq<Event>, i: nat)
    requires IsRun(c, states, events) && i < |events|
    ensures Doomed(states[i + 1]) <==> Doomed(states[i]) || Fatal(states[i], events[i])
    ensures Doomed(states[i]) ==> states[i + 1].b == states[i].b
  {
    StateInv(c, states, events, i);
    DoomedStep(c, states[i], events[i]);
  }

  lemma {:induction false} DoomedStays(c: Config, states: seq<State>, events: seq<Event>, i: nat, j: nat)
    requires IsRun(c, states, events) && i <= j < |states| && Doomed(states[i])
    ensures Doomed(states[j]) && states[j].b == states[i].b
    decreases j - i
  {
    if i < j {
      DoomedNext(c, states, events, i);
      DoomedStays(c, states, events, i + 1, j);
    }
  }

  /**
    After a create step of the first batch has failed, no other batch is ever started, and the run
    cannot get past the batch loop.
  */
  lemma FirstBatchFailureStops(c: Config, states: seq<State>, events: seq<Event>, i: nat, j: nat)
    requires IsRun(c, states, events) && i < j < |states| && states[i].b == 0 && events[i].Create? && !events[i].w.ok
    ensures states[j].b == 0 && forall p :: p in states[j].log.claimed ==> p.name == Uuid(0)
    ensures var phase := states[j].phase;
            phase.Batch? || ((phase.Deleting? || phase.DeletingPvcs? || phase.Returned?) && phase.exit.Cleanup?)
  {
    StateInv(c, states, events, j);
    DoomedNext(c, states, events, i);
    DoomedStays(c, states, events, i + 1, j);
  }

  lemma {:induction false} BatchesAscend(c: Config, states: seq<State>, events: seq<Event>, i: nat, j: nat)
    requires IsRun(c, states, events) && i <= j < |states|
    ensures states[i].b <= states[j].b
  {
    if i < j {
      BatchesAscend(c, states, events, i, j - 1);
    }
  }

  /**
    When the workers of a batch are done the run waits for its pods, unless it is the first batch and
    one of its create steps has failed: then it cleans up.
  */
  lemma JoinContinuesIff(c: Config, states: seq<State>, events: seq<Event>, i: nat)
    requires IsRun(c, states, events) && i < |events| && events[i] == Loop(Join)
    ensures states[i + 1].phase == Waiting(0) <==>
            states[i].b > 0 || forall k :: 0 <= k < i ==> !(events[k].Create? && !events[k].w.ok)
    ensures states[i + 1].phase == Waiting(0) || states[i + 1].phase == Deleting(Cleanup)
  {
    StateInv(c, states, events, i);
    DoomedIff(c, states, events, i);
    DoomedStep(c, states[i], events[i]);
    forall k | 0 <= k < i
      ensures states[k].b <= states[i].b
    {
      BatchesAscend(c, states, events, k, i);
    }
    if states[i].b == 0 {
      forall k | 0 <= k < i && Fatal(states[k], events[k])
        ensures events[k].Create? && !events[k].w.ok
      {
        NoWaitBefore(c, states, events, k, i);
      }
    }
  }

  /** A state of the first batch's creation has no failed wait behind it. */
  lemma NoWaitBefore(c: Config, states: seq<State>, events: seq<Event>, k: nat, i: nat)
    requires IsRun(c, states, events) && k < i < |states| && states[i].phase.Batch? && states[i].b == 0
    ensures !events[k].Loop?
  {
    if events[k].Loop? {
      PastFirstCreation(c, states, events, k + 1, i);
    }
  }

  /** The first batch has been created, or the run is over before it. */
  predicate PastFirst(s: State) {
    s.b > 0 || s.phase.Waiting? || s.phase.Deleting? || s.phase.DeletingPvcs? || s.phase.Returned?
  }

  lemma PastFirstStep(c: Config, s: State, e: Event)
    requires Enabled(c, s, e) && PastFirst(s)
    ensures PastFirst(Step(c, s, e))
  {
  }

  lemma {:induction false} PastFirstCreation(c: Config, states: seq<State>, events: seq<Event>, k: nat, i: nat)
    requires IsRun(c, states, events) && k <= i < |states| && PastFirst(states[k])
    ensures PastFirst(states[i])
  {
    if k < i {
      PastFirstCreation(c, states, events, k, i - 1);
      PastFirstStep(c, states[i - 1], events[i - 1]);
    }
  }

  /** Why a run returned: by cleanup exactly after a fatal step. */
  lemma CleanupIff(c: Config, states: seq<State>, events: seq<Event>, i: nat)
    requires IsRun(c, states, events) && i < |states| && states[i].phase.Returned?
    ensures states[i].phase.exit.Cleanup? <==> FatalBefore(states, events, i)
  {
    DoomedIff(c, states, events, i);
  }

  /** What fails during cleanup is not reported. */
  lemma CleanupReportsNothing(c: Config, states: seq<State>, events: seq<Event>, i: nat)
    requires IsRun(c, states, events) && i < |events|
    requires var phase := states[i].phase; (phase.Deleting? || phase.DeletingPvcs?) && phase.exit.Cleanup?
    ensures states[i + 1].errors == states[i].errors
  {
  }

  /** A step with which the run returns before the first batch. */
  predicate Refusal(c: Config, e: Event) {
    && e.Head?
    && match e.h
       case Enter(templateOk) => c.batch <= 0 || c.total % c.batch != 0 || !templateOk
       case CreatePvc(ok, _) => !ok
       case StartFirstBatch => false
  }

  predicate RefusedEarly(s: State) {
    s.phase.Returned? && s.phase.exit.Early?
  }

  lemma EarlyStep(c: Config, s: State, e: Event)
    requires Shape(c, s) && Enabled(c, s, e)
    ensures RefusedEarly(Step(c, s, e)) <==> Refusal(c, e)
    ensures !RefusedEarly(s)
  {
  }

  /** Before the first batch exactly after a refusal, which ends the run. */
  lemma EarlyIff(c: Config, states: seq<State>, events: seq<Event>, i: nat)
    requires IsRun(c, states, events) && i < |events|
    ensures RefusedEarly(states[i + 1]) <==> Refusal(c, events[i])
    ensures !RefusedEarly(states[i])
  {
    StateInv(c, states, events, i);
    EarlyStep(c, states[i], events[i]);
  }

  // ---------------------------------------------------------------- PVCs and batches

  /** The first batch starts with exactly the PVCs 0 to totalCount - 1. */
  lemma PvcsAtFirstBatch(c: Config, states: seq<State>, events: seq<Event>, i: nat)
    requires IsRun(c, states, events) && i < |events| && events[i] == Head(StartFirstBatch)
    ensures forall x: nat :: x in states[i].cluster.pvcs <==> x < c.total
  {
    StateInv(c, states, events, i);
  }

  /** The next batch is started exactly while totalCount is not used up. */
  lemma NextBatchIff(c: Config, states: seq<State>, events: seq<Event>, i: nat)
    requires IsRun(c, states, events) && i < |events| && events[i] == Loop(NextBatch)
    ensures var s, s' := states[i], states[i + 1];
            if (s.b + 1) * c.batch < c.total then s'.phase.Batch? && s'.b == s.b + 1
            else s'.phase == Deleting(Normal) && s'.b == s.b
  {
    StateInv(c, states, events, i);
    BatchesLeft(c, states[i].b + 1);
  }

  lemma BatchesLeft(c: Config, k: nat)
    requires c.Accepted()
    ensures k < c.Batches() <==> k * c.batch < c.total
  {
    assert c.total == c.Batches() * c.batch;
    if k < c.Batches() {
      Apart(c.batch, k, c.Batches());
    } else if 0 <= c.Batches() < k {
      Apart(c.batch, c.Batches(), k);
    }
  }

  // ---------------------------------------------------------------- two batches alive at once

  ghost predicate NoDeletion(s: State) {
    forall n :: 0 <= n < |s.deleters| ==> s.deleters[n].Todo?
  }

  /** The second batch has been created and nothing of the first deleted. */
  ghost predicate Full(s: State) {
    s.phase.Batch? && s.b == 1 && s.load.Loaded? && AllDone(s.creators)
  }

  /** On the way there. */
  ghost predicate Filling(s: State) {
    || s.phase.Entry?
    || s.phase.CreatingPvcs?
    || ((s.phase.Batch? || s.phase.Waiting?) && s.b == 0)
    || (s.phase.Batch? && s.b == 1 && NoDeletion(s))
  }

  lemma LoopFills(c: Config, s: State, e: LoopEvent)
    requires Shape(c, s) && Tracked(s) && CanLoop(c, s, e) && s.log.sound && StepLoop(c, s, e).log.sound
    requires Filling(s) && !Full(s) && c.Batches() >= 2
    ensures Filling(StepLoop(c, s, e))
  {
  }

  lemma FillStep(c: Config, s: State, e: Event)
    requires Shape(c, s) && Tracked(s) && Enabled(c, s, e) && s.log.sound && Step(c, s, e).log.sound
    requires Filling(s) && !Full(s) && c.Batches() >= 2
    requires s.phase.Batch? ==> (s.load.Loaded? && AllDone(s.creators)) || e.Create?
    ensures Filling(Step(c, s, e))
  {
    if e.Loop? {
      LoopFills(c, s, e.l);
    }
  }

  lemma FillMove(c: Config, s: State) returns (e: Event)
    requires Inv(c, s) && s.log.sound && Filling(s) && !Full(s) && c.Accepted() && c.Batches() >= 2 && c.total > 0
    ensures Enabled(c, s, e) && Below(c, Step(c, s, e), s)
    ensures Inv(c, Step(c, s, e)) && Step(c, s, e).log.sound && Filling(Step(c, s, e))
  {
    e := CanSucceed(c, s);
    FillStep(c, s, e);
    InvStep(c, s, e);
    StepsDescend(c, s, e);
  }

  lemma {:induction false} FillsUp(c: Config, states: seq<State>, events: seq<Event>, s: State)
    returns (states': seq<State>, events': seq<Event>)
    requires IsRun(c, states, events) && s == states[|events|] && Inv(c, s) && s.log.sound && Filling(s)
    requires c.Accepted() && c.Batches() >= 2 && c.total > 0
    ensures IsRun(c, states', events')
    ensures var last := states'[|events'|]; Inv(c, last) && last.log.sound && Filling(last) && Full(last)
    decreases Stage(s), Outer(c, s), Middle(s), Inner(c, s)
  {
    if Full(s) {
      return states, events;
    }
    var e := FillMove(c, s);
    RunExtend(c, states, events, e);
    states', events' := FillsUp(c, states + [Step(c, s, e)], events + [e], Step(c, s, e));
  }

  lemma FullCount(c: Config, s: State)
    requires Inv(c, s) && s.log.sound && Filling(s) && Full(s)
    ensures |s.cluster.pods| == 2 * c.batch
  {
    var first, second := Slots(0, c.batch), Slots(1, c.batch);
    FullPods(c, s);
    assert first !! second;
    SlotCount(0, c.batch);
    SlotCount(1, c.batch);
  }

  lemma FullPods(c: Config, s: State)
    requires Inv(c, s) && s.log.sound && Filling(s) && Full(s)
    ensures s.cluster.pods.Keys == Slots(0, c.batch) + Slots(1, c.batch)
  {
    forall p
      ensures p in s.cluster.pods <==> p in Slots(0, c.batch) || p in Slots(1, c.batch)
    {
      assert p in Slots(0, c.batch) <==> p.name == Uuid(0) && p.n < c.batch;
      assert p in Slots(1, c.batch) <==> p.name == Uuid(1) && p.n < c.batch;
    }
  }

  /** The bound on live pods is reached by every orchestrator of two batches or more, without any failure. */
  lemma BoundIsReached(c: Config) returns (states: seq<State>, events: seq<Event>)
    requires c.batch > 0 && c.total % c.batch == 0 && c.total >= 2 * c.batch
    ensures IsRun(c, states, events)
    ensures var last := states[|events|]; last.log.sound && |last.cluster.pods| == 2 * c.batch
  {
    assert c.total == c.Batches() * c.batch;
    if c.Batches() <= 1 {
      Apart(c.batch, if c.Batches() < 0 then 0 else c.Batches(), 2);
      assert false;
    }
    InvInit(c);
    states, events := FillsUp(c, [Init()], [], Init());
    FullCount(c, states[|events|]);
  }
}
