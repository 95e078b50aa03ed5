/**
  Termination of the batch orchestrator, and the orchestrator in the source's own shape: the nested
  loops of mixedCreateDeletePodsOnly, whose every action is a step of the transition system.
*/
module PodChurnProgram {
  import opened PodChurn
  import opened PodChurnRuns

  // ---------------------------------------------------------------- termination

  function Work(ws: seq<Worker>): nat {
    if ws == [] then 0 else (match ws[0] case Todo => 2 case Called => 1 case Done(_) => 0) + Work(ws[1..])
  }

  lemma {:induction false} WorkUpdate(ws: seq<Worker>, n: nat, w: Worker)
    requires n < |ws|
    requires (ws[n].Todo? && !w.Todo?) || (ws[n].Called? && w.Done?)
    ensures Work(ws[n := w]) < Work(ws)
  {
    if n > 0 {
      WorkUpdate(ws[1..], n - 1, w);
      assert ws[n := w][1..] == ws[1..][n - 1 := w];
    } else {
      assert ws[n := w][1..] == ws[1..];
    }
  }

  function Stage(s: State): nat {
    match s.phase
    case Entry => 5
    case CreatingPvcs(_) => 4
    case Batch => 3
    case Waiting(_) => 3
    case Deleting(_) => 2
    case DeletingPvcs(_, _) => 1
    case Returned(_, _) => 0
  }

  function Outer(c: Config, s: State): int {
    match s.phase
    case CreatingPvcs(i) => c.Pvcs() - i
    case DeletingPvcs(_, i) => c.Pvcs() - i
    case Batch => if c.batch > 0 && s.b < c.Batches() then c.Batches() - s.b else 0
    case Waiting(_) => if c.batch > 0 && s.b < c.Batches() then c.Batches() - s.b else 0
    case _ => 0
  }

  function Middle(s: State): nat {
    if s.phase.Batch? then if s.load.NotLoaded? then 2 else 1 else 0
  }

  function Inner(c: Config, s: State): int {
    match s.phase
    case Batch => Work(s.creators) + Work(s.deleters)
    case Waiting(i) => c.batch - i
    case Deleting(_) => Work(s.deleters)
    case _ => 0
  }

  ghost predicate Below(c: Config, s': State, s: State) {
    if Stage(s') != Stage(s) then Stage(s') < Stage(s)
    else if Outer(c, s') != Outer(c, s) then 0 <= Outer(c, s') < Outer(c, s)
    else if Middle(s') != Middle(s) then Middle(s') < Middle(s)
    else 0 <= Inner(c, s') < Inner(c, s)
  }

  lemma CreatorsDescend(c: Config, s: State, e: CreateEvent)
    requires CanCreate(c, s, e)
    ensures Below(c, StepCreate(c, s, e), s)
  {
    if !e.LoadApp? {
      WorkUpdate(s.creators, e.n, StepCreate(c, s, e).creators[e.n]);
    }
  }

  lemma DeletersDescend(c: Config, s: State, e: DeleteEvent)
    requires CanDelete(s, e)
    ensures Below(c, StepDelete(s, e), s)
  {
    WorkUpdate(s.deleters, e.n, StepDelete(s, e).deleters[e.n]);
  }

  lemma LoopDescends(c: Config, s: State, e: LoopEvent)
    requires Shape(c, s) && CanLoop(c, s, e)
    ensures Below(c, StepLoop(c, s, e), s)
  {
  }

  lemma StepsDescend(c: Config, s: State, e: Event)
    requires Inv(c, s) && Enabled(c, s, e)
    ensures Below(c, Step(c, s, e), s)
  {
    match e
    case Head(_) =>
    case Create(w) => CreatorsDescend(c, s, w);
    case Delete(d) => DeletersDescend(c, s, d);
    case Loop(l) => LoopDescends(c, s, l);
    case Tail(_) =>
  }

  /** A state that has not returned can always move: no interleaving deadlocks. */
  lemma NeverStuck(c: Config, states: seq<State>, events: seq<Event>, s: State) returns (e: Event)
    requires IsRun(c, states, events) && s in states && !s.phase.Returned?
    ensures Enabled(c, s, e)
  {
    RunInv(c, states, events);
    match s.phase
    case Entry => e := Head(Enter(true));
    case CreatingPvcs(i) => e := Head(if i < c.Pvcs() then CreatePvc(false, false) else StartFirstBatch);
    case Batch =>
      if s.load.NotLoaded? {
        e := Create(LoadApp(true));
      } else if n :| 0 <= n < |s.creators| && !s.creators[n].Done? {
        e := Create(if s.creators[n].Todo? then CreateCall(n, false, false) else CreateWait(n, false));
      } else if n :| 0 <= n < |s.deleters| && !s.deleters[n].Done? {
        e := Delete(if s.deleters[n].Todo? then DeleteCall(n, false, false) else DeleteWait(n, false, false));
      } else {
        e := Loop(Join);
      }
    case Waiting(i) => e := Loop(if i < c.batch then WaitPod(false) else NextBatch);
    case Deleting(_) =>
      if n :| 0 <= n < |s.deleters| && !s.deleters[n].Done? {
        e := Delete(if s.deleters[n].Todo? then DeleteCall(n, false, false) else DeleteWait(n, false, false));
      } else {
        e := Tail(FinishDelete);
      }
    case DeletingPvcs(_, i) => e := Tail(if i < c.Pvcs() then DeletePvc(false, false) else Finish);
  }

  lemma CreatedPodCanRun(c: Config, s: State, n: nat)
    requires Inv(c, s) && s.log.sound && c.total > 0
    requires (s.phase.Batch? || s.phase.Waiting?) && n < |s.creators| && !s.creators[n].Todo?
    ensures CanRun(s, Pod(Uuid(s.b), n))
  {
    IndexInRange(c, s.b, n);
  }

  lemma BatchCanSucceed(c: Config, s: State) returns (e: Event)
    requires Inv(c, s) && s.log.sound && s.phase.Batch? && c.total > 0
    ensures Enabled(c, s, e) && Step(c, s, e).log.sound
    ensures (s.load.Loaded? && AllDone(s.creators)) || e.Create?
  {
    if s.load.NotLoaded? {
      e := Create(LoadApp(true));
    } else if n :| 0 <= n < |s.creators| && !s.creators[n].Done? {
      e := Create(if s.creators[n].Todo? then CreateCall(n, true, true) else CreateWait(n, true));
      if !s.creators[n].Todo? {
        CreatedPodCanRun(c, s, n);
      }
    } else if n :| 0 <= n < |s.deleters| && !s.deleters[n].Done? {
      e := Delete(if s.deleters[n].Todo? then DeleteCall(n, true, false) else DeleteWait(n, true, true));
    } else {
      e := Loop(Join);
    }
  }

  /** As long as nothing has failed, the next operation can succeed, and it can be a creation if one is left. */
  lemma CanSucceed(c: Config, s: State) returns (e: Event)
    requires Inv(c, s) && s.log.sound && !s.phase.Returned? && c.Accepted() && c.total > 0
    ensures Enabled(c, s, e) && Step(c, s, e).log.sound
    ensures s.phase.Batch? ==> (s.load.Loaded? && AllDone(s.creators)) || e.Create?
  {
    match s.phase
    case Entry => e := Head(Enter(true));
    case CreatingPvcs(i) => e := Head(if i < c.Pvcs() then CreatePvc(true, true) else StartFirstBatch);
    case Batch => e := BatchCanSucceed(c, s);
    case Waiting(i) =>
      e := Loop(if i < c.batch then WaitPod(true) else NextBatch);
      if i < c.batch {
        CreatedPodCanRun(c, s, i);
      }
    case Deleting(_) =>
      if n :| 0 <= n < |s.deleters| && !s.deleters[n].Done? {
        e := Delete(if s.deleters[n].Todo? then DeleteCall(n, true, false) else DeleteWait(n, true, true));
      } else {
        e := Tail(FinishDelete);
      }
    case DeletingPvcs(_, i) => e := Tail(if i < c.Pvcs() then DeletePvc(true, true) else Finish);
  }

  ghost predicate ReturnsNil(c: Config, states: seq<State>, events: seq<Event>) {
    IsRun(c, states, events) && var last := states[|events|]; last.phase.Returned? && last.phase.ok
  }

  lemma {:induction false} SucceedsFrom(c: Config, states: seq<State>, events: seq<Event>, s: State)
    returns (states': seq<State>, events': seq<Event>)
    requires IsRun(c, states, events) && s == states[|events|]
    requires Inv(c, s) && s.log.sound && c.Accepted() && c.total > 0
    ensures ReturnsNil(c, states', events')
    decreases Stage(s), Outer(c, s), Middle(s), Inner(c, s)
  {
    if s.phase.Returned? {
      return states, events;
    }
    var e := CanSucceed(c, s);
    InvStep(c, s, e);
    StepsDescend(c, s, e);
    RunExtend(c, states, events, e);
    states', events' := SucceedsFrom(c, states + [Step(c, s, e)], events + [e], Step(c, s, e));
  }

  /** The arguments for which some run returns nil: the guard lets through more than these. */
  lemma NilIsPossibleIff(c: Config)
    ensures (exists states, events :: ReturnsNil(c, states, events)) <==>
            c.batch > 0 && c.total % c.batch == 0 && c.total > 0
  {
    if c.Accepted() && c.total > 0 {
      InvInit(c);
      var states, events := SucceedsFrom(c, [Init()], [], Init());
    }
    forall states, events | ReturnsNil(c, states, events)
      ensures c.Accepted() && c.total > 0
    {
      NilIffNothingFailed(c, states, events, states[|events|]);
    }
  }

  /** An execution that keeps moving until it returns. */
  ghost predicate IsExecution(c: Config, run: nat -> State, event: nat -> Event) {
    && run(0) == Init()
    && forall i: nat :: !run(i).phase.Returned? ==>
         Enabled(c, run(i), event(i)) && run(i + 1) == Step(c, run(i), event(i))
  }

  lemma {:induction false} ReturnsFrom(c: Config, run: nat -> State, event: nat -> Event, i: nat) returns (k: nat)
    requires IsExecution(c, run, event) && Inv(c, run(i))
    ensures run(k).phase.Returned?
    decreases Stage(run(i)), Outer(c, run(i)), Middle(run(i)), Inner(c, run(i))
  {
    k := i;
    if !run(i).phase.Returned? {
      InvStep(c, run(i), event(i));
      StepsDescend(c, run(i), event(i));
      k := ReturnsFrom(c, run, event, i + 1);
    }
  }

  /** Every execution returns, whatever the scheduler and the cluster do. */
  lemma EveryExecutionReturns(c: Config, run: nat -> State, event: nat -> Event)
    requires IsExecution(c, run, event)
    ensures exists k: nat :: run(k).phase.Returned?
  {
    InvInit(c);
    var k := ReturnsFrom(c, run, event, 0);
  }

  // ---------------------------------------------------------------- the program

  lemma Advance(c: Config, states: seq<State>, events: seq<Event>, s: State, e: Event)
    requires IsRun(c, states, events) && s == states[|events|] && Inv(c, s) && Enabled(c, s, e)
    ensures var s' := Step(c, s, e);
            IsRun(c, states + [s'], events + [e]) && Inv(c, s') && Below(c, s', s)
  {
    InvStep(c, s, e);
    StepsDescend(c, s, e);
    RunExtend(c, states, events, e);
  }

  /** The arguments are right and the cluster does all it is asked to do. */
  ghost predicate AllGood(c: Config, answers: nat -> bool) {
    c.batch > 0 && c.total % c.batch == 0 && c.total > 0 && forall n: nat :: answers(n)
  }

  /** Nothing fails of itself, and no refusal is overlooked. */
  ghost predicate Honest(c: Config, answers: nat -> bool, asked: nat, sound: bool) {
    (AllGood(c, answers) ==> sound) && (sound ==> forall n: nat :: n < asked ==> answers(n))
  }

  lemma HonestOn(c: Config, answers: nat -> bool, asked: nat, sound: bool, sound': bool)
    requires Honest(c, answers, asked, sound)
    requires (AllGood(c, answers) ==> sound') && (sound' ==> sound && answers(asked))
    ensures Honest(c, answers, asked + 1, sound')
  {
  }

  class Orchestrator {
    const c: Config
    const answers: nat -> bool   // what the cluster answers to each operation, as far as it can
    var asked: nat
    var s: State
    ghost var states: seq<State>
    ghost var events: seq<Event>

    ghost predicate Valid()
      reads this
    {
      IsRun(c, states, events) && s == states[|states| - 1] && Inv(c, s) && Honest(c, answers, asked, s.log.sound)
    }

    ghost predicate Favourable() {
      AllGood(c, answers)
    }

    constructor (total: int, batch: int, answers: nat -> bool)
      ensures Valid() && c == Config(total, batch) && this.answers == answers && s == Init() && asked == 0
    {
      c := Config(total, batch);
      this.answers := answers;
      s, asked := Init(), 0;
      states, events := [Init()], [];
      InvInit(Config(total, batch));
    }

    /** One action of one goroutine that asks nothing of the cluster. */
    method Do(e: Event)
      requires Valid() && Enabled(c, s, e) && (Step(c, s, e).log.sound <==> s.log.sound)
      modifies this
      ensures Valid() && s == Step(c, old(s), e) && Below(c, s, old(s)) && asked == old(asked)
    {
      var next := Step(c, s, e);
      Advance(c, states, events, s, e);
      s := next;
      states, events := states + [next], events + [e];
    }

    /** One action that is an operation on the cluster, which has given its next answer. */
    method Ask(e: Event)
      requires Valid() && Enabled(c, s, e)
      requires Favourable() ==> Step(c, s, e).log.sound
      requires Step(c, s, e).log.sound ==> s.log.sound && answers(asked)
      modifies this
      ensures Valid() && s == Step(c, old(s), e) && Below(c, s, old(s)) && asked == old(asked) + 1
    {
      var next := Step(c, s, e);
      Advance(c, states, events, s, e);
      HonestOn(c, answers, asked, s.log.sound, next.log.sound);
      s, asked := next, asked + 1;
      states, events := states + [next], events + [e];
    }

    /** wg.Wait() on the create and delete goroutines of one batch, under an arbitrary scheduler. */
    method JoinBatch()
      requires Valid() && s.phase.Batch?
      modifies this
      ensures Valid() && s.phase.Batch? && s.b == old(s.b)
      ensures !s.load.NotLoaded? && AllDone(s.creators) && AllDone(s.deleters)
    {
      while
        invariant Valid() && s.phase.Batch? && s.b == old(s.b)
        decreases Middle(s), Inner(c, s)
      {
        case s.load.NotLoaded? =>
          Ask(Create(LoadApp(answers(asked))));
        case exists n :: 0 <= n < |s.creators| && !s.creators[n].Done? =>
          CreatePodStep();
        case exists n :: 0 <= n < |s.deleters| && !s.deleters[n].Done? =>
          DeletePodStep();
      }
    }

    /** Some unfinished worker of createConcurrentPods takes its next step. */
    method CreatePodStep()
      requires Valid() && s.phase.Batch?
      requires exists n :: 0 <= n < |s.creators| && !s.creators[n].Done?
      modifies this
      ensures Valid() && s.phase == old(s.phase) && s.b == old(s.b) && Below(c, s, old(s))
    {
      var n :| 0 <= n < |s.creators| && !s.creators[n].Done?;
      var ok, made: bool := answers(asked), *;
      if s.creators[n].Todo? {
        Ask(Create(CreateCall(n, ok, ok || made)));
      } else {
        if Favourable() {
          CreatedPodCanRun(c, s, n);
        }
        Ask(Create(CreateWait(n, ok && CanRun(s, Pod(Uuid(s.b), n)))));
      }
    }

    /** Some unfinished worker of deleteConcurrentPods takes its next step. */
    method DeletePodStep()
      requires Valid() && (s.phase.Batch? || s.phase.Deleting?)
      requires exists n :: 0 <= n < |s.deleters| && !s.deleters[n].Done?
      modifies this
      ensures Valid() && s.phase == old(s.phase) && s.b == old(s.b) && Below(c, s, old(s))
    {
      var n :| 0 <= n < |s.deleters| && !s.deleters[n].Done?;
      var ok, gone: bool := answers(asked), *;
      if s.deleters[n].Todo? {
        Ask(Delete(DeleteCall(n, ok && Pod(s.target, n) in s.cluster.pods, gone)));
      } else {
        Ask(Delete(DeleteWait(n, ok, ok || gone)));
      }
    }

    /** Wait for every pod of the batch; on the first failure the cleanup has begun. */
    method WaitForPods() returns (running: bool)
      requires Valid() && s.phase == Waiting(0)
      modifies this
      ensures Valid()
      ensures if running then s.phase.Waiting? && s.phase.i == c.batch && s.b == old(s.b)
              else s.phase == Deleting(Cleanup)
    {
      while s.phase.i < c.batch
        invariant Valid() && s.phase.Waiting? && s.b == old(s.b)
        decreases c.batch - s.phase.i
      {
        if Favourable() {
          CreatedPodCanRun(c, s, s.phase.i);
        }
        var ok := answers(asked) && CanRun(s, Pod(ResultName(s), s.phase.i));
        Ask(Loop(WaitPod(ok)));
        if !ok {
          return false;
        }
      }
      return true;
    }

    /** Delete the last result's pods. */
    method DeletePods()
      requires Valid() && s.phase.Deleting?
      modifies this
      ensures Valid() && s.phase.DeletingPvcs?
    {
      while exists n :: 0 <= n < |s.deleters| && !s.deleters[n].Done?
        invariant Valid() && s.phase.Deleting?
        decreases Inner(c, s)
      {
        DeletePodStep();
      }
      Do(Tail(FinishDelete));
    }

    /** Delete the next PVC. */
    method DeletePvcStep()
      requires Valid() && s.phase.DeletingPvcs? && s.phase.i < c.Pvcs()
      modifies this
      ensures Valid() && s.phase.DeletingPvcs? && s.phase.i == old(s.phase.i) + 1
    {
      var ok, gone: bool := answers(asked) && s.phase.i in s.cluster.pvcs, *;
      Ask(Tail(DeletePvc(ok, ok || gone)));
    }

    /** Delete the last result's pods, then every PVC. */
    method DeletePodsAndPvcs()
      requires Valid() && s.phase.Deleting?
      modifies this
      ensures Valid() && s.phase.Returned?
    {
      DeletePods();
      while s.phase.i < c.Pvcs()
        invariant Valid() && s.phase.DeletingPvcs?
        decreases c.Pvcs() - s.phase.i
      {
        DeletePvcStep();
      }
      Do(Tail(Finish));
    }

    /** mixedCreateDeletePodsOnly. */
    method Run() returns (ok: bool)
      requires Valid() && s == Init()
      modifies this
      ensures Valid() && s.phase.Returned? && s.phase.ok == ok
      ensures ok <==> s.log.sound
      ensures ok ==> s.cluster.pods == map[] && s.cluster.pvcs == {}
      ensures Favourable() ==> ok
      ensures ok ==> forall n: nat :: n < asked ==> answers(n)
    {
      Body();
      NilIffNothingFailed(c, states, events, s);
      ok := s.phase.ok;
    }

    method Body()
      requires Valid() && s == Init()
      modifies this
      ensures Valid() && s.phase.Returned?
    {
      CreatePvcs();
      if s.phase.Returned? {
        return;
      }
      Do(Head(StartFirstBatch));
      while s.phase.Batch?
        invariant Valid() && (s.phase.Batch? || s.phase.Deleting?)
        decreases Stage(s), Outer(c, s)
      {
        RunBatch();
      }
      DeletePodsAndPvcs();
    }

    method CreatePvcs()
      requires Valid() && s == Init()
      modifies this
      ensures Valid() && (s.phase.Returned? || (s.phase.CreatingPvcs? && s.phase.i >= c.Pvcs()))
    {
      Ask(Head(Enter(answers(asked))));
      while s.phase.CreatingPvcs? && s.phase.i < c.Pvcs()
        invariant Valid() && (s.phase.CreatingPvcs? || s.phase.Returned?)
        decreases Stage(s), Outer(c, s)
      {
        var ok, made: bool := answers(asked), *;
        Ask(Head(CreatePvc(ok, ok || made)));
      }
    }

    method RunBatch()
      requires Valid() && s.phase.Batch?
      modifies this
      ensures Valid()
      ensures s.phase.Deleting? || (s.phase.Batch? && 0 <= Outer(c, s) < Outer(c, old(s)))
    {
      JoinBatch();
      Do(Loop(Join));
      if s.phase.Waiting? {
        FinishBatch();
      }
    }

    method FinishBatch()
      requires Valid() && s.phase == Waiting(0)
      modifies this
      ensures Valid()
      ensures s.phase.Deleting? || (s.phase.Batch? && 0 <= Outer(c, s) < Outer(c, old(s)))
    {
      var running := WaitForPods();
      if running {
        Do(Loop(NextBatch));
      }
    }
  }
}
