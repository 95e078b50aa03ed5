/**
  The lock that the batch orchestrator is there to stress (internal/util/lock/group_lock.go): any
  number of operations of group A, or any number of group B, but never both.

  A step is one statement of one goroutine: taking the mutex, testing the other group's counter,
  going to sleep on a condition variable, changing a counter, broadcasting, giving the mutex back.
*/
module GroupLock {
  import opened Options
  import opened Sets

  datatype Group = A | B {
    function Other(): Group {
      if this == A then B else A
    }
  }

  /** Where a goroutine is. */
  datatype Pc =
    | Idle
    | Entering(g: Group)      // AcquireGroup: blocked on the mutex
    | Testing(g: Group)       // AcquireGroup: has the mutex, at the loop test
    | Asleep(g: Group)        // AcquireGroup: in Wait, not yet woken
    | Awake(g: Group)         // AcquireGroup: woken, must take the mutex again
    | Acquired(g: Group)      // AcquireGroup: has counted itself in, still has the mutex
    | Holding(g: Group)       // between AcquireGroup and ReleaseGroup
    | Leaving(g: Group)       // ReleaseGroup: blocked on the mutex
    | Dropping(g: Group)      // ReleaseGroup: has the mutex, counter not yet decremented
    | Waking(g: Group)        // ReleaseGroup: counter has become 0, broadcast pending
    | Unlocking               // ReleaseGroup: about to give the mutex back
  {
    predicate Owns() {
      Testing? || Acquired? || Dropping? || Waking? || Unlocking?
    }

    /** Counted in the counter of group x. */
    predicate Counted(x: Group) {
      (Acquired? || Holding? || Leaving? || Dropping?) && g == x
    }
  }

  datatype State = State(mutex: Option<nat>, aCount: int, bCount: int, threads: map<nat, Pc>) {
    function Count(g: Group): int {
      if g == A then aCount else bCount
    }

    function Add(g: Group, d: int): State {
      if g == A then this.(aCount := aCount + d) else this.(bCount := bCount + d)
    }

    function Goto(t: nat, pc: Pc): State {
      this.(threads := threads[t := pc])
    }
  }

  datatype Action = Acquire(g: Group) | Release | Lock | Advance

  function Init(threads: set<nat>): State {
    State(None, 0, 0, map t | t in threads :: Idle)
  }

  predicate Enabled(s: State, t: nat, a: Action) {
    && t in s.threads
    && var pc := s.threads[t];
       match a
       case Acquire(_) => pc.Idle?
       case Release => pc.Holding?
       case Lock => (pc.Entering? || pc.Awake? || pc.Leaving?) && s.mutex.None?
       case Advance => pc.Owns()
  }

  /** Broadcast on the condition variable on which group g waits. */
  function WakeAll(threads: map<nat, Pc>, g: Group): map<nat, Pc> {
    map t | t in threads :: if threads[t] == Asleep(g) then Awake(g) else threads[t]
  }

  function StepAdvance(s: State, t: nat): State
    requires Enabled(s, t, Advance)
  {
    match s.threads[t]
    case Testing(g) =>
      if s.Count(g.Other()) > 0 then s.Goto(t, Asleep(g)).(mutex := None)
      else s.Add(g, 1).Goto(t, Acquired(g))
    case Acquired(g) => s.Goto(t, Holding(g)).(mutex := None)
    case Dropping(g) => s.Add(g, -1).Goto(t, if s.Count(g) - 1 == 0 then Waking(g) else Unlocking)
    case Waking(g) => s.(threads := WakeAll(s.threads, g.Other())).Goto(t, Unlocking)
    case Unlocking => s.Goto(t, Idle).(mutex := None)
  }

  function Step(s: State, t: nat, a: Action): State
    requires Enabled(s, t, a)
  {
    match a
    case Acquire(g) => s.Goto(t, Entering(g))
    case Release => s.Goto(t, Leaving(s.threads[t].g))
    case Lock =>
      var g := s.threads[t].g;
      s.Goto(t, if s.threads[t].Leaving? then Dropping(g) else Testing(g)).(mutex := Some(t))
    case Advance => StepAdvance(s, t)
  }

  ghost predicate IsRun(states: seq<State>, steps: seq<(nat, Action)>) {
    && |states| == |steps| + 1
    && states[0] == Init(states[0].threads.Keys)
    && forall i :: 0 <= i < |steps| ==>
         Enabled(states[i], steps[i].0, steps[i].1) && states[i + 1] == Step(states[i], steps[i].0, steps[i].1)
  }

  // ---------------------------------------------------------------- invariant

  ghost function Members(threads: map<nat, Pc>, g: Group): set<nat> {
    set t | t in threads && threads[t].Counted(g)
  }

  ghost predicate MutexHeld(s: State) {
    && (s.mutex.Some? ==> s.mutex.value in s.threads)
    && forall t :: t in s.threads ==> (s.threads[t].Owns() <==> s.mutex == Some(t))
  }

  ghost predicate Counted(s: State) {
    forall g: Group :: s.Count(g) == |Members(s.threads, g)|
  }

  ghost predicate Exclusive(s: State) {
    s.aCount == 0 || s.bCount == 0
  }

  /** Nobody sleeps without a reason to: the other group is active, or its last member is about to wake all. */
  ghost predicate Watched(s: State) {
    forall t :: t in s.threads && s.threads[t].Asleep? ==>
      var g := s.threads[t].g;
      s.Count(g.Other()) > 0 || (exists u :: u in s.threads && s.threads[u] == Waking(g.Other()))
  }

  ghost predicate Inv(s: State) {
    MutexHeld(s) && Counted(s) && Exclusive(s) && Watched(s)
  }

  lemma MembersUpdate(threads: map<nat, Pc>, t: nat, pc: Pc, g: Group)
    requires t in threads
    ensures var now := |Members(threads[t := pc], g)|;
            now == |Members(threads, g)| - (if threads[t].Counted(g) then 1 else 0) + (if pc.Counted(g) then 1 else 0)
  {
    var rest := threads - {t};
    MembersAdd(rest, t, threads[t], g);
    MembersAdd(rest, t, pc, g);
    assert rest[t := threads[t]] == threads && rest[t := pc] == threads[t := pc];
  }

  lemma MembersAdd(threads: map<nat, Pc>, t: nat, pc: Pc, g: Group)
    requires t !in threads
    ensures |Members(threads[t := pc], g)| == |Members(threads, g)| + if pc.Counted(g) then 1 else 0
  {
    var members := Members(threads, g);
    assert Members(threads[t := pc], g) == if pc.Counted(g) then members + {t} else members;
  }

  lemma MembersWake(threads: map<nat, Pc>, g: Group, x: Group)
    ensures Members(WakeAll(threads, g), x) == Members(threads, x)
  {
  }

  lemma CountedStep(s: State, t: nat, a: Action)
    requires Inv(s) && Enabled(s, t, a)
    ensures Counted(Step(s, t, a))
  {
    var s' := Step(s, t, a);
    forall g: Group
      ensures s'.Count(g) == |Members(s'.threads, g)|
    {
      if a.Advance? && s.threads[t].Waking? {
        var x := s.threads[t].g.Other();
        MembersWake(s.threads, x, g);
        MembersUpdate(WakeAll(s.threads, x), t, Unlocking, g);
      } else {
        MembersUpdate(s.threads, t, s'.threads[t], g);
      }
    }
  }

  lemma ExclusiveStep(s: State, t: nat, a: Action)
    requires Inv(s) && Enabled(s, t, a)
    ensures Exclusive(Step(s, t, a))
  {
    assert s.Count(A) == |Members(s.threads, A)| && s.Count(B) == |Members(s.threads, B)|;
    assert s.threads[t].Dropping? ==> t in Members(s.threads, s.threads[t].g);
  }

  lemma WatchedStep(s: State, t: nat, a: Action)
    requires Inv(s) && Enabled(s, t, a)
    ensures Watched(Step(s, t, a))
  {
    var s' := Step(s, t, a);
    assert s.Count(A) == |Members(s.threads, A)| && s.Count(B) == |Members(s.threads, B)|;
    forall v | v in s'.threads && s'.threads[v].Asleep?
      ensures var g := s'.threads[v].g;
              s'.Count(g.Other()) > 0 || (exists u :: u in s'.threads && s'.threads[u] == Waking(g.Other()))
    {
      var g := s'.threads[v].g;
      if v != t && s.Count(g.Other()) <= 0 {
        assert s.threads[v] == Asleep(g);
        var u :| u in s.threads && s.threads[u] == Waking(g.Other());
        assert u != t ==> s'.threads[u] == Waking(g.Other());
      }
      assert s'.threads[t] == Waking(g.Other()) || s'.Count(g.Other()) > 0 || v != t;
    }
  }

  lemma MutexStep(s: State, t: nat, a: Action)
    requires Inv(s) && Enabled(s, t, a)
    ensures MutexHeld(Step(s, t, a))
  {
  }

  lemma InvStep(s: State, t: nat, a: Action)
    requires Inv(s) && Enabled(s, t, a)
    ensures Inv(Step(s, t, a))
  {
    MutexStep(s, t, a);
    CountedStep(s, t, a);
    ExclusiveStep(s, t, a);
    WatchedStep(s, t, a);
  }

  lemma {:induction false} StateInv(states: seq<State>, steps: seq<(nat, Action)>, i: nat)
    requires IsRun(states, steps) && i < |states|
    ensures Inv(states[i])
  {
    if i == 0 {
      assert Members(states[0].threads, A) == {} && Members(states[0].threads, B) == {};
    } else {
      StateInv(states, steps, i - 1);
      InvStep(states[i - 1], steps[i - 1].0, steps[i - 1].1);
    }
  }

  lemma RunInv(states: seq<State>, steps: seq<(nat, Action)>)
    requires IsRun(states, steps)
    ensures forall s :: s in states ==> Inv(s)
  {
    forall i | 0 <= i < |states|
      ensures Inv(states[i])
    {
      StateInv(states, steps, i);
    }
  }

  // ---------------------------------------------------------------- theorems over every run

  /** The group that goroutine t asked for last, in the first i steps. */
  ghost function Asked(steps: seq<(nat, Action)>, i: nat, t: nat): Option<Group>
    requires i <= |steps|
  {
    if i == 0 then None
    else if steps[i - 1].0 == t && steps[i - 1].1.Acquire? then Some(steps[i - 1].1.g)
    else Asked(steps, i - 1, t)
  }

  /** Between AcquireGroup and the end of ReleaseGroup a goroutine is where its caller sent it. */
  lemma {:induction false} LabelIsAsked(states: seq<State>, steps: seq<(nat, Action)>, i: nat, t: nat)
    requires IsRun(states, steps) && i < |states| && t in states[i].threads
    ensures var pc := states[i].threads[t]; pc.Idle? || pc.Unlocking? || Asked(steps, i, t) == Some(pc.g)
  {
    if i > 0 {
      LabelStep(states[i - 1], steps[i - 1].0, steps[i - 1].1, t);
      LabelIsAsked(states, steps, i - 1, t);
    }
  }

  lemma LabelStep(s: State, u: nat, a: Action, t: nat)
    requires Enabled(s, u, a) && t in Step(s, u, a).threads
    ensures t in s.threads
    ensures var pc, pc' := s.threads[t], Step(s, u, a).threads[t];
            || pc'.Idle? || pc'.Unlocking?
            || (if u == t && a.Acquire? then pc'.g == a.g else !pc.Idle? && !pc.Unlocking? && pc'.g == pc.g)
  {
  }

  /** In every run, two goroutines that are both active have asked for the same group. */
  lemma MutualExclusion(states: seq<State>, steps: seq<(nat, Action)>, i: nat, t: nat, u: nat)
    requires IsRun(states, steps) && i < |states|
    requires var s := states[i]; t in s.threads && u in s.threads && s.threads[t].Holding? && s.threads[u].Holding?
    ensures Asked(steps, i, t).Some? && Asked(steps, i, t) == Asked(steps, i, u)
  {
    var s := states[i];
    StateInv(states, steps, i);
    assert s.Count(A) == |Members(s.threads, A)| && s.Count(B) == |Members(s.threads, B)|;
    assert t in Members(s.threads, s.threads[t].g) && u in Members(s.threads, s.threads[u].g);
    LabelIsAsked(states, steps, i, t);
    LabelIsAsked(states, steps, i, u);
  }

  /** No goroutine can move unless its caller starts or ends an operation. */
  ghost predicate Quiet(s: State) {
    forall t, a :: Enabled(s, t, a) ==> a.Acquire? || a.Release?
  }

  /** Every goroutine is idle, active, or kept asleep by an active operation of the other group. */
  ghost predicate Settled(s: State) {
    forall t :: t in s.threads ==>
      || s.threads[t].Idle?
      || s.threads[t].Holding?
      || (s.threads[t].Asleep? && exists u :: u in s.threads && s.threads[u] == Holding(s.threads[t].g.Other()))
  }

  lemma QuietIsSettled(s: State)
    requires Inv(s) && Quiet(s)
    ensures Settled(s)
  {
    forall u | u in s.threads
      ensures s.threads[u].Idle? || s.threads[u].Holding? || s.threads[u].Asleep?
    {
      assert !Enabled(s, u, Advance) && !Enabled(s, u, Lock);
      assert s.mutex.Some? ==> Enabled(s, s.mutex.value, Advance);
    }
    forall t | t in s.threads && s.threads[t].Asleep?
      ensures exists u :: u in s.threads && s.threads[u] == Holding(s.threads[t].g.Other())
    {
      var g := s.threads[t].g.Other();
      assert s.Count(g) == |Members(s.threads, g)|;
      assert s.Count(g) > 0;
      var u :| u in Members(s.threads, g);
    }
  }

  /**
    No wake-up is lost: once everything that can run has run, a goroutine that is still waiting to enter
    waits for an active one that has asked for the other group.
  */
  lemma OnlyTheOtherGroupBlocks(states: seq<State>, steps: seq<(nat, Action)>, i: nat, t: nat)
    requires IsRun(states, steps) && i < |states| && Quiet(states[i]) && t in states[i].threads
    ensures var s := states[i];
            || s.threads[t].Idle?
            || s.threads[t].Holding?
            || exists u :: u in s.threads && s.threads[u].Holding? &&
                 Asked(steps, i, u).Some? && Asked(steps, i, t).Some? && Asked(steps, i, u) != Asked(steps, i, t)
  {
    var s := states[i];
    StateInv(states, steps, i);
    QuietIsSettled(s);
    if s.threads[t].Asleep? {
      var u :| u in s.threads && s.threads[u] == Holding(s.threads[t].g.Other());
      LabelIsAsked(states, steps, i, t);
      LabelIsAsked(states, steps, i, u);
    }
  }

  // ---------------------------------------------------------------- the lock always becomes quiet

  /** How many steps a goroutine can take by itself before it is idle, holding or asleep. */
  function Rank(pc: Pc): nat {
    match pc
    case Entering(_) | Awake(_) => 3
    case Testing(_) => 2
    case Acquired(_) => 1
    case Leaving(_) => 4
    case Dropping(_) => 3
    case Waking(_) => 2
    case Unlocking => 1
    case _ => 0
  }

  ghost function AtLeast(threads: map<nat, Pc>, k: nat): set<nat> {
    set t | t in threads && Rank(threads[t]) >= k
  }

  /** The sum of the ranks, by layers. */
  ghost function Effort(threads: map<nat, Pc>): nat {
    |AtLeast(threads, 1)| + |AtLeast(threads, 2)| + |AtLeast(threads, 3)| + |AtLeast(threads, 4)|
  }

  predicate MayWake(pc: Pc) {
    pc.Leaving? || pc.Dropping? || pc.Waking?
  }

  /** The goroutines that may still wake others. */
  ghost function Wakers(threads: map<nat, Pc>): set<nat> {
    set t | t in threads && MayWake(threads[t])
  }

  lemma LayerShrinks(threads: map<nat, Pc>, t: nat, pc: Pc, k: nat)
    requires t in threads && Rank(pc) <= Rank(threads[t])
    ensures |AtLeast(threads[t := pc], k)| <= |AtLeast(threads, k)|
    ensures Rank(pc) < k <= Rank(threads[t]) ==> |AtLeast(threads[t := pc], k)| < |AtLeast(threads, k)|
  {
    var before, after := AtLeast(threads, k), AtLeast(threads[t := pc], k);
    assert after <= before;
    SubsetSize(after, before);
    if Rank(pc) < k <= Rank(threads[t]) {
      assert t in before - after;
    }
  }

  lemma EffortFalls(threads: map<nat, Pc>, t: nat, pc: Pc)
    requires t in threads && Rank(pc) < Rank(threads[t])
    ensures Effort(threads[t := pc]) < Effort(threads)
  {
    LayerShrinks(threads, t, pc, 1);
    LayerShrinks(threads, t, pc, 2);
    LayerShrinks(threads, t, pc, 3);
    LayerShrinks(threads, t, pc, 4);
  }

  lemma WakersFall(threads: map<nat, Pc>, threads': map<nat, Pc>, t: nat)
    requires Wakers(threads') <= Wakers(threads)
    ensures |Wakers(threads')| <= |Wakers(threads)|
    ensures t in Wakers(threads) && t !in Wakers(threads') ==> |Wakers(threads')| < |Wakers(threads)|
  {
    SubsetSize(Wakers(threads'), Wakers(threads));
    if t in Wakers(threads) && t !in Wakers(threads') {
      assert t in Wakers(threads) - Wakers(threads');
    }
  }

  /** A step that no caller asked for leaves less to do: fewer goroutines that may wake others, or less effort. */
  lemma OwnStepsDescend(s: State, t: nat, a: Action)
    requires Enabled(s, t, a) && (a.Lock? || a.Advance?)
    ensures var s' := Step(s, t, a);
            && |Wakers(s'.threads)| <= |Wakers(s.threads)|
            && (|Wakers(s'.threads)| < |Wakers(s.threads)| || Effort(s'.threads) < Effort(s.threads))
  {
    var s' := Step(s, t, a);
    WakersFall(s.threads, s'.threads, t);
    if !s.threads[t].Waking? {
      EffortFalls(s.threads, t, s'.threads[t]);
    }
  }

  /** A step that no caller asked for. */
  ghost predicate OwnStep(s: State, t: nat, a: Action, s': State) {
    (a.Lock? || a.Advance?) && Enabled(s, t, a) && s' == Step(s, t, a)
  }

  /** No caller starts or ends an operation, and somebody moves until nobody can. */
  ghost predicate LeftAlone(run: nat -> State, step: nat -> (nat, Action)) {
    forall i: nat :: Quiet(run(i)) || OwnStep(run(i), step(i).0, step(i).1, run(i + 1))
  }

  lemma {:induction false} QuietFrom(run: nat -> State, step: nat -> (nat, Action), i: nat) returns (k: nat)
    requires LeftAlone(run, step) && Inv(run(i))
    ensures Quiet(run(k)) && Inv(run(k))
    decreases |Wakers(run(i).threads)|, Effort(run(i).threads)
  {
    k := i;
    if !Quiet(run(i)) {
      assert OwnStep(run(i), step(i).0, step(i).1, run(i + 1));
      OwnStepsDescend(run(i), step(i).0, step(i).1);
      InvStep(run(i), step(i).0, step(i).1);
      k := QuietFrom(run, step, i + 1);
    }
  }

  /**
    A lock left alone becomes quiet, whatever the scheduler does, and then only the other group keeps
    anybody waiting.
  */
  lemma BecomesQuiet(states: seq<State>, steps: seq<(nat, Action)>, run: nat -> State, step: nat -> (nat, Action))
    requires IsRun(states, steps) && run(0) in states && LeftAlone(run, step)
    ensures exists k: nat :: Quiet(run(k)) && Settled(run(k))
  {
    RunInv(states, steps);
    var k := QuietFrom(run, step, 0);
    QuietIsSettled(run(k));
  }

  /** The lock never keeps an operation out while the other group is inactive. */
  lemma SameGroupEnters(s: State, t: nat, g: Group)
    requires Inv(s) && t in s.threads && s.threads[t] == Testing(g)
    ensures Step(s, t, Advance).threads[t] == Acquired(g) <==> Members(s.threads, g.Other()) == {}
  {
  }
}
