/**
  What holds of every run of the reference tracker: for every interleaving of the writers and whichever
  RADOS operations are lost.
*/
module RefTrackerRuns {
  import opened Options
  import opened RefTracker

  // ---------------------------------------------------------------- how the log grows

  /** A step adds at most one entry, for an operation that was under way, and changes the object only with one. */
  lemma StepLog(s: State, e: Event)
    requires Enabled(s, e)
    ensures var s' := Step(s, e);
            || (s'.log == s.log && s'.obj == s.obj)
            || (|s'.log| == |s.log| + 1 && s'.log[..|s.log|] == s.log && s'.log[|s.log|].op == e.op &&
                e.op in s.writers && !s.writers[e.op].Finished?)
  {
  }

  lemma StepWriters(s: State, e: Event, op: nat)
    requires Enabled(s, e) && op in s.writers
    ensures var s' := Step(s, e);
            && op in s'.writers && s'.writers[op].r == s.writers[op].r
            && (s.writers[op].Finished? || op != e.op ==> s'.writers[op] == s.writers[op])
  {
  }

  ghost predicate Ended(s: State, op: nat) {
    op in s.writers && s.writers[op].Finished?
  }

  ghost predicate Unlogged(s: State, op: nat) {
    forall p :: 0 <= p < |s.log| ==> s.log[p].op != op
  }

  /** The log goes on from an earlier one, without entries for op. */
  ghost predicate GoesOn(earlier: seq<Entry>, log: seq<Entry>, op: nat) {
    earlier <= log && forall p :: |earlier| <= p < |log| ==> log[p].op != op
  }

  lemma StepGoesOn(earlier: seq<Entry>, s: State, e: Event, op: nat)
    requires Enabled(s, e) && Ended(s, op) && GoesOn(earlier, s.log, op)
    ensures Ended(Step(s, e), op) && GoesOn(earlier, Step(s, e).log, op)
  {
    StepLog(s, e);
    StepWriters(s, e, op);
  }

  /** What is logged between two moments comes after what was logged, and is not of an operation that had ended. */
  lemma {:induction false} LogGrows(states: seq<State>, events: seq<Event>, i: int, j: int, op: nat)
    requires IsRun(states, events) && 0 <= i <= j < |states| && Ended(states[i], op)
    ensures Ended(states[j], op) && GoesOn(states[i].log, states[j].log, op)
    decreases j - i
  {
    if i < j {
      LogGrows(states, events, i, j - 1, op);
      StepGoesOn(states[i].log, states[j - 1], events[j - 1], op);
    }
  }

  /** When s was current, the operation logged p-th had ended and the one logged q-th had not begun. */
  ghost predicate Before(s: State, log: seq<Entry>, p: int, q: int) {
    0 <= p < |log| && 0 <= q < |log| && Ended(s, log[p].op) && log[q].op !in s.writers
  }

  lemma RealTimeOrder(states: seq<State>, events: seq<Event>, i: int, j: int, p: int, q: int)
    requires IsRun(states, events) && 0 <= i <= j < |states| && Before(states[i], states[j].log, p, q)
    ensures p < q
  {
    LogGrows(states, events, i, j, states[j].log[p].op);
    RunInv(states, events);
    assert states[i] in states;
    assert forall x :: 0 <= x < |states[i].log| ==> states[i].log[x].op in states[i].writers;
  }

  /**
    In every run the stored object is the atomic tracker after the logged operations, each logged
    operation was started with that request and answered as the tracker answers, none is logged twice,
    every acknowledged one is logged with the answer its caller got, and the log keeps the order of
    operations of which one ended before the other began.  The stored refcount is the number of Normal
    keys.
  */
  lemma Linearizable(states: seq<State>, events: seq<Event>, j: nat)
    requires IsRun(states, events) && j < |states|
    ensures var s := states[j];
            && Legal(s.log) && After(s.log) == Contents(s.obj)
            && (forall p :: 0 <= p < |s.log| ==> s.log[p].op in s.writers && s.writers[s.log[p].op].r == s.log[p].r)
            && (forall p, q :: 0 <= p < q < |s.log| ==> s.log[p].op != s.log[q].op)
            && (forall op :: op in s.writers && s.writers[op].Finished? && s.writers[op].result.Ok? ==>
                  Entry(op, s.writers[op].r, s.writers[op].result.answer) in s.log)
            && (s.obj.Some? ==> s.obj.value.count == |NormalKeys(s.obj.value.omap)| > 0)
    ensures forall i, p, q :: 0 <= i <= j && Before(states[i], states[j].log, p, q) ==> p < q
  {
    RunInv(states, events);
    assert states[j] in states;
    forall i, p, q | 0 <= i <= j && Before(states[i], states[j].log, p, q)
      ensures p < q
    {
      RealTimeOrder(states, events, i, j, p, q);
    }
  }

  /** The branch that reports a corrupted object cannot be taken. */
  lemma NeverUnderflows(states: seq<State>, events: seq<Event>, s: State, refs: Refs)
    requires IsRun(states, events) && s in states && s.obj.Some?
    ensures !DecideRemove(s.obj.value.count, Found(s.obj.value.omap, refs.Keys), refs).Refuse?
  {
    RunInv(states, events);
    RemoveDecision(s.obj.value, refs, 0);
  }

  /** A write whose version assertion holds is the atomic operation, however old the keys it was decided on. */
  lemma WriteIsAtomic(states: seq<State>, events: seq<Event>, s: State, op: nat, fate: Fate)
    requires IsRun(states, events) && s in states && Enabled(s, WriteObject(op, fate)) && !fate.Lost?
    requires s.obj.Some? && s.obj.value.ver == s.writers[op].gen
    ensures var s', r := Step(s, WriteObject(op, fate)), s.writers[op].r;
            && Contents(s'.obj) == Atomic(Contents(s.obj), r).0
            && s'.writers[op] == Finished(r, Reply(fate, Atomic(Contents(s.obj), r).1))
            && s'.log == s.log + [Entry(op, r, Atomic(Contents(s.obj), r).1)]
  {
    RunInv(states, events);
    StillDecided(s, op);
    DecisionIsAtomic(s.obj.value, s.writers[op].r, s.clock + 1);
  }

  // ---------------------------------------------------------------- what happened since a version was read

  /** What an operation that is under way read when the object was as in s. */
  ghost predicate Saw(s: State, w: Writer) {
    && (w.Creating? ==> s.obj.None?)
    && (w.Versioned? || w.Deciding? ==> s.obj.Some? && s.obj.value.ver == w.gen)
  }

  ghost predicate UnderWay(s: State, op: nat) {
    op in s.writers && !s.writers[op].Started? && !s.writers[op].Finished?
  }

  /** The operation is under way at state j, having read the object's version in the i-th step. */
  ghost predicate ReadAt(states: seq<State>, events: seq<Event>, i: int, j: int, op: nat)
    requires IsRun(states, events) && 0 <= j < |states|
  {
    && 0 <= i < j && events[i] == ReadVersion(op, Served)
    && (forall k :: i < k <= j ==> UnderWay(states[k], op))
    && Saw(states[i], states[j].writers[op])
  }

  /** An operation leaves Started only by reading the version, and keeps what it read. */
  lemma UnderWayBefore(s: State, e: Event, op: nat)
    requires Enabled(s, e) && UnderWay(Step(s, e), op) && !(e.op == op && e.ReadVersion?)
    ensures UnderWay(s, op)
    ensures forall s0 :: Saw(s0, s.writers[op]) ==> Saw(s0, Step(s, e).writers[op])
  {
  }

  lemma UnderWayAfter(s: State, e: Event)
    requires Enabled(s, e) && e.ReadVersion? && UnderWay(Step(s, e), e.op)
    ensures e.fate.Served? && Saw(s, Step(s, e).writers[e.op])
  {
  }

  lemma ReadJustNow(states: seq<State>, events: seq<Event>, j: nat, op: nat)
    requires IsRun(states, events) && 0 < j < |states| && UnderWay(states[j], op)
    requires events[j - 1].op == op && events[j - 1].ReadVersion?
    ensures ReadAt(states, events, j - 1, j, op)
  {
    UnderWayAfter(states[j - 1], events[j - 1]);
  }

  lemma ReadBefore(states: seq<State>, events: seq<Event>, i: int, j: nat, op: nat)
    requires IsRun(states, events) && 0 < j < |states| && UnderWay(states[j], op)
    requires !(events[j - 1].op == op && events[j - 1].ReadVersion?) && ReadAt(states, events, i, j - 1, op)
    ensures ReadAt(states, events, i, j, op)
  {
    UnderWayBefore(states[j - 1], events[j - 1], op);
  }

  lemma {:induction false} VersionWasRead(states: seq<State>, events: seq<Event>, j: nat, op: nat) returns (i: nat)
    requires IsRun(states, events) && j < |states| && UnderWay(states[j], op)
    ensures ReadAt(states, events, i, j, op)
  {
    if events[j - 1].op == op && events[j - 1].ReadVersion? {
      ReadJustNow(states, events, j, op);
      i := j - 1;
    } else {
      UnderWayBefore(states[j - 1], events[j - 1], op);
      i := VersionWasRead(states, events, j - 1, op);
      ReadBefore(states, events, i, j, op);
    }
  }

  /** A step that changes the object is the effect of an operation. */
  ghost predicate Changes(states: seq<State>, k: int, op: nat)
    requires 0 <= k < |states| - 1
  {
    && states[k].obj != states[k + 1].obj
    && |states[k + 1].log| == |states[k].log| + 1 && states[k + 1].log[|states[k].log|].op == op
  }

  /** An object that is not the same later was changed in between. */
  lemma {:induction false} ChangedBetween(states: seq<State>, events: seq<Event>, i: int, j: int) returns (k: int)
    requires IsRun(states, events) && 0 <= i <= j < |states| && states[i].obj != states[j].obj
    ensures i <= k < j && Changes(states, k, events[k].op)
  {
    if states[j - 1].obj != states[j].obj {
      k := j - 1;
      StepLog(states[k], events[k]);
    } else {
      k := ChangedBetween(states, events, i, j - 1);
    }
  }

  /** The object was removed by the k-th step and has not been created again up to state j. */
  ghost predicate DeletedAt(states: seq<State>, events: seq<Event>, k: int, j: int)
    requires IsRun(states, events)
  {
    && 0 <= k < j < |states| && events[k].WriteObject? && states[k].obj.Some?
    && forall m :: k < m <= j ==> states[m].obj.None?
  }

  lemma {:induction false} Vanished(states: seq<State>, events: seq<Event>, i: int, j: int) returns (k: int)
    requires IsRun(states, events) && 0 <= i <= j < |states| && states[i].obj.Some? && states[j].obj.None?
    ensures i <= k && DeletedAt(states, events, k, j)
  {
    if states[j - 1].obj.None? {
      k := Vanished(states, events, i, j - 1);
    } else {
      k := j - 1;
    }
  }

  /**
    A keyed read that RADOS answers crashes its caller exactly when the object was deleted since its
    version was read.
  */
  lemma CrashIffDeleted(states: seq<State>, events: seq<Event>, j: nat, op: nat) returns (i: nat)
    requires IsRun(states, events) && j < |events| && events[j] == ReadKeys(op, Served)
    ensures ReadAt(states, events, i, j, op)
    ensures states[j + 1].writers[op] == Finished(states[j].writers[op].r, Crash) <==>
            exists k :: i < k && DeletedAt(states, events, k, j)
  {
    i := VersionWasRead(states, events, j, op);
    if states[j].obj.None? {
      var k := Vanished(states, events, i, j);
    }
  }

  // ---------------------------------------------------------------- nobody fails in vain

  /** An operation under way whose object has changed: somebody else has changed it. */
  lemma ChangedByOther(states: seq<State>, events: seq<Event>, i: int, j: int, op: nat) returns (k: int)
    requires IsRun(states, events) && 0 <= j < |states| && ReadAt(states, events, i, j, op)
    requires states[i].obj != states[j].obj
    ensures i < k < j && events[k].op != op && Changes(states, k, events[k].op)
  {
    k := ChangedBetween(states, events, i, j);
  }

  /**
    No progress is lost: an operation whose RADOS operations are answered fails only for want of keys,
    for a refcount that would overflow, or because another operation changed the object in the meantime.
  */
  lemma FailsOnlyForOthers(states: seq<State>, events: seq<Event>, j: nat, op: nat)
    requires IsRun(states, events) && j < |events| && events[j].op == op && (events[j].Start? || events[j].fate.Served?)
    requires Ended(states[j + 1], op) && !states[j + 1].writers[op].result.Ok?
    ensures var r := states[j + 1].writers[op].r;
            || Keys(r) == {}
            || Overflows(states[j], r)
            || (exists i, k :: i < k < j && 0 <= i && events[i] == ReadVersion(op, Served) && events[k].op != op &&
                  Changes(states, k, events[k].op))
    ensures states[j + 1].obj == states[j].obj && Unlogged(states[j + 1], op)
  {
    NoTrace(states, events, j, op);
    if !events[j].Start? && !events[j].ReadVersion? {
      var i := VersionWasRead(states, events, j, op);
      if states[i].obj != states[j].obj {
        var k := ChangedByOther(states, events, i, j, op);
      } else {
        RunInv(states, events);
        assert states[j] in states;
        RefusalIsOverflow(states[j], states[j].writers[op].r);
      }
    }
  }

  /** An answered step that ends an operation without Ok changes nothing, and nothing was changed before. */
  lemma NoTrace(states: seq<State>, events: seq<Event>, j: nat, op: nat)
    requires IsRun(states, events) && j < |events| && events[j].op == op && (events[j].Start? || events[j].fate.Served?)
    requires Ended(states[j + 1], op) && !states[j + 1].writers[op].result.Ok?
    ensures states[j + 1].obj == states[j].obj && Unlogged(states[j + 1], op)
  {
    FailedStep(states[j], events[j]);
    StateInv(states, events, j);
    assert forall p :: 0 <= p < |states[j].log| ==> Ended(states[j], states[j].log[p].op);
  }

  lemma FailedStep(s: State, e: Event)
    requires Enabled(s, e) && (e.Start? || e.fate.Served?)
    requires Ended(Step(s, e), e.op) && !Step(s, e).writers[e.op].result.Ok?
    ensures Step(s, e).obj == s.obj && Step(s, e).log == s.log && !Ended(s, e.op)
  {
  }

  lemma RefusalIsOverflow(s: State, r: Request)
    requires Inv(s) && s.obj.Some? && |Keys(r)| < LIMIT
    ensures Decide(s.obj.value.count, Found(s.obj.value.omap, Keys(r)), r).Refuse? ==> Overflows(s, r)
  {
    match r
    case Add(keys) => AddDecision(s.obj.value, keys, 0);
    case Remove(refs) => RemoveDecision(s.obj.value, refs, 0);
  }

  /**
    How a step can end its operation: a request without keys is refused at once; a caller is left with
    neither result nor error only by a keyed read that was lost or found no object; and no caller is told
    that a lost operation went well.
  */
  lemma EndOutcome(states: seq<State>, events: seq<Event>, j: nat)
    requires IsRun(states, events) && j < |events| && Ended(states[j + 1], events[j].op)
    ensures var e, w := events[j], states[j + 1].writers[events[j].op];
            && (e.Start? ==> w.result == Error)
            && (w.result == Crash <==> e.ReadKeys? && (e.fate.Lost? || states[j].obj.None?))
            && (!e.Start? && !e.fate.Served? ==> !w.result.Ok?)
  {
  }

  /** An operation without keys ends at its start, any other does not. */
  lemma EmptyRefused(states: seq<State>, events: seq<Event>, j: nat)
    requires IsRun(states, events) && j < |events| && events[j].Start?
    ensures Ended(states[j + 1], events[j].op) <==> Keys(events[j].r) == {}
    ensures states[j + 1].obj == states[j].obj && states[j + 1].log == states[j].log
  {
  }

  // ---------------------------------------------------------------- an undisturbed operation

  /** The run goes on with answered steps of one operation. */
  ghost predicate GoesOnWith(events: seq<Event>, events': seq<Event>, op: nat) {
    && events <= events'
    && forall k :: |events| <= k < |events'| ==> events'[k].op == op && (events'[k].Start? || events'[k].fate.Served?)
  }

  lemma Continue(first: seq<Event>, states: seq<State>, events: seq<Event>, e: Event)
    returns (states': seq<State>, events': seq<Event>)
    requires IsRun(states, events) && GoesOnWith(first, events, e.op)
    requires Enabled(states[|events|], e) && (e.Start? || e.fate.Served?)
    ensures IsRun(states', events') && GoesOnWith(first, events', e.op)
    ensures states'[|events'|] == Step(states[|events|], e)
  {
    states', events' := states + [Step(states[|events|], e)], events + [e];
  }

  lemma StartedThenRead(s: State, op: nat, r: Request)
    ensures StepReadVersion(Goto(s, op, Started(r)), op, r, Served) == StepReadVersion(s, op, r, Served)
  {
    var w := StepReadVersion(s, op, r, Served).writers[op];
    assert s.writers[op := Started(r)][op := w] == s.writers[op := w];
  }

  lemma AloneReads(states: seq<State>, events: seq<Event>, op: nat, r: Request)
    returns (states': seq<State>, events': seq<Event>)
    requires IsRun(states, events) && op !in states[|events|].writers && 0 < |Keys(r)| < LIMIT
    ensures IsRun(states', events') && GoesOnWith(events, events', op)
    ensures states'[|events'|] == StepReadVersion(states[|events|], op, r, Served)
  {
    states', events' := Continue(events, states, events, Start(op, r));
    states', events' := Continue(events, states', events', ReadVersion(op, Served));
    StartedThenRead(states[|events|], op, r);
  }

  /** What is left to do on an object that exists. */
  lemma AloneDecides(first: seq<Event>, states: seq<State>, events: seq<Event>,
                     op: nat, r: Request, o: Object, d: Decision)
    returns (states': seq<State>, events': seq<Event>)
    requires IsRun(states, events) && GoesOnWith(first, events, op)
    requires var s := states[|events|]; s.obj == Some(o) && op in s.writers && s.writers[op] == Versioned(r, o.ver)
    requires d == Decide(o.count, Found(o.omap, Keys(r)), r)
    ensures IsRun(states', events') && GoesOnWith(first, events', op)
    ensures var s' := Act(states[|events|], op, r, o.ver, d);
            states'[|events'|] == if d.Commit? then StepWrite(s', op, r, o.ver, d.w, Served) else s'
  {
    states', events' := Continue(first, states, events, ReadKeys(op, Served));
    if d.Commit? {
      states', events' := Continue(first, states', events', WriteObject(op, Served));
    }
  }

  /** The steps of an operation that nobody disturbs lead to where AloneIsAtomic says. */
  lemma AloneIsReached(states: seq<State>, events: seq<Event>, op: nat, r: Request)
    returns (states': seq<State>, events': seq<Event>)
    requires IsRun(states, events) && op !in states[|events|].writers && 0 < |Keys(r)| < LIMIT
    ensures IsRun(states', events') && GoesOnWith(events, events', op)
    ensures states'[|events'|] == Alone(states[|events|], op, r)
  {
    var s := states[|events|];
    states', events' := AloneReads(states, events, op, r);
    if s.obj.Some? {
      var o := s.obj.value;
      states', events' := AloneDecides(events, states', events', op, r, o, Decide(o.count, Found(o.omap, Keys(r)), r));
    } else if r.Add? {
      states', events' := Continue(events, states', events', CreateObject(op, Served));
    }
  }

  // ---------------------------------------------------------------- a run that crashes

  ghost predicate AllServed(events: seq<Event>) {
    forall e :: e in events ==> e.Start? || e.fate.Served?
  }

  lemma Extend(states: seq<State>, events: seq<Event>, e: Event) returns (states': seq<State>, events': seq<Event>)
    requires IsRun(states, events) && AllServed(events)
    requires Enabled(states[|events|], e) && (e.Start? || e.fate.Served?)
    ensures IsRun(states', events') && AllServed(events') && states'[|events'|] == Step(states[|events|], e)
  {
    states', events' := states + [Step(states[|events|], e)], events + [e];
  }

  /** An Add that creates the object with a single key. */
  lemma CreateRun() returns (states: seq<State>, events: seq<Event>)
    ensures IsRun(states, events) && AllServed(events)
    ensures states[|events|] == State(Some(Object(1, 1, map["v" := Normal])), 1,
                                      map[0 := Finished(Add({"v"}), Ok(true))], [Entry(0, Add({"v"}), true)])
  {
    var add := Add({"v"});
    events := [Start(0, add), ReadVersion(0, Served), CreateObject(0, Served)];
    assert Created({"v"}, 1) == Object(1, 1, map["v" := Normal]);
    states := [Init(), State(None, 0, map[0 := Started(add)], []), State(None, 0, map[0 := Creating(add)], []),
               State(Some(Object(1, 1, map["v" := Normal])), 1,
                     map[0 := Finished(add, Ok(true))], [Entry(0, add, true)])];
  }

  /** Such a deletion can come between the two reads of an Add, although every RADOS operation is answered. */
  lemma ConcurrentDeleteCrashes() returns (states: seq<State>, events: seq<Event>)
    ensures IsRun(states, events) && AllServed(events)
    ensures 1 in states[|events|].writers && states[|events|].writers[1] == Finished(Add({"w"}), Crash)
  {
    var more, remove := Add({"w"}), Remove(map["v" := Normal]);
    states, events := CreateRun();
    OnlyKeyRemoved(states[|events|].obj.value);
    assert Keys(remove) == {"v"};
    states, events := Extend(states, events, Start(1, more));
    states, events := Extend(states, events, ReadVersion(1, Served));
    states, events := Extend(states, events, Start(2, remove));
    states, events := Extend(states, events, ReadVersion(2, Served));
    states, events := Extend(states, events, ReadKeys(2, Served));
    states, events := Extend(states, events, WriteObject(2, Served));
    states, events := Extend(states, events, ReadKeys(1, Served));
  }

  lemma OnlyKeyRemoved(o: Object)
    requires o.count == 1 && o.omap == map["v" := Normal]
    ensures Decide(o.count, Found(o.omap, {"v"}), Remove(map["v" := Normal])) == Commit(Delete)
  {
    var refs: Refs := map["v" := Normal];
    assert refs.Keys == {"v"};
    assert Found(o.omap, {"v"}) == refs;
    assert ToDrop(refs, refs) == {"v"};
    assert Uncounted(refs, refs) == {"v"};
  }
}
