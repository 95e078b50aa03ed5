/**
  The concurrent batch orchestrator of the NVMe-oF end-to-end tests
  (e2e/nvmeof_helper.go): create every PVC, then for each batch create its pods while the pods of
  the previous batch are being deleted, and clean up on every exit path.

  The goroutines make it a transition system.  An `Event` is one indivisible action of one
  goroutine together with its outcome, so a sequence of enabled events is one interleaving with one
  pattern of failures.
*/
module PodChurn {

  datatype Config = Config(total: int, batch: int) {
    // The two guards at the top of mixedCreateDeletePodsOnly.
    predicate Accepted() {
      batch > 0 && total % batch == 0
    }

    function Batches(): int
      requires batch > 0
    {
      total / batch
    }

    // `range totalCount` runs no iteration when totalCount is negative.
    function Pvcs(): nat {
      if total > 0 then total else 0
    }
  }

  /** The base name of a batch: a fresh UUID, or "" when the pod template could not be loaded. */
  datatype Name = Uuid(batch: nat) | Unnamed

  datatype Pod = Pod(name: Name, n: nat)

  /** One goroutine of a worker pool: an API call, then a wait, then a value in its error slot. */
  datatype Worker = Todo | Called | Done(ok: bool)

  datatype Load = NotLoaded | Loaded | LoadFailed

  /** Which way out the run takes: before any batch, by cleanup, or past the batch loop. */
  datatype Exit = Early | Cleanup | Normal

  datatype Phase =
    | Entry
    | CreatingPvcs(i: nat)
    | Batch
    | Waiting(i: nat)
    | Deleting(exit: Exit)
    | DeletingPvcs(exit: Exit, i: nat)
    | Returned(ok: bool, exit: Exit)

  /** What exists in the cluster: PVCs, and pods with the PVC index each one mounts. */
  datatype Cluster = Cluster(pvcs: set<nat>, pods: map<Pod, int>)

  /** History, which the program does not read. */
  datatype Log = Log(
    claimed: map<Pod, int>,     // every pod ever created
    creations: nat,             // pod creations that took effect
    podDeletes: multiset<Pod>,  // deletion attempts
    pvcDeletes: multiset<nat>,
    sound: bool,                // no operation has failed
    deletesOk: bool             // no pod deletion has failed
  )

  datatype State = State(
    phase: Phase,
    b: nat,                     // batch being created, waited for or finally deleted
    load: Load,                 // pod template of batch b
    creators: seq<Worker>,      // createConcurrentPods of batch b
    deleters: seq<Worker>,      // deleteConcurrentPods of the pods named `target`
    target: Name,
    deleting: nat,              // batch that `deleters` works on
    errors: nat,                // len(allErrors)
    cluster: Cluster,
    log: Log
  ) {
    function Fail(): State {
      this.(log := log.(sound := false))
    }
  }

  /** Sequential steps before the first batch. */
  datatype HeadEvent =
    | Enter(templateOk: bool)
    | CreatePvc(ok: bool, made: bool)
    | StartFirstBatch

  /**
    Steps of createConcurrentPods: loading the template, and of its n-th worker.  A failed call may
    still make the pod.
  */
  datatype CreateEvent =
    | LoadApp(ok: bool)
    | CreateCall(n: nat, ok: bool, made: bool)
    | CreateWait(n: nat, ok: bool)

  /** Steps of the n-th worker of deleteConcurrentPods. */
  datatype DeleteEvent =
    | DeleteCall(n: nat, ok: bool, gone: bool)
    | DeleteWait(n: nat, ok: bool, gone: bool)

  /** Sequential steps of the batch loop. */
  datatype LoopEvent =
    | Join
    | WaitPod(ok: bool)
    | NextBatch

  /** Sequential steps after the last batch or during cleanup. */
  datatype TailEvent =
    | FinishDelete
    | DeletePvc(ok: bool, gone: bool)
    | Finish

  datatype Event =
    | Head(h: HeadEvent) | Create(w: CreateEvent) | Delete(d: DeleteEvent) | Loop(l: LoopEvent) | Tail(t: TailEvent)

  // ---------------------------------------------------------------- transitions

  function Init(): State {
    State(Entry, 0, NotLoaded, [], [], Unnamed, 0, 0, Cluster({}, map[]),
          Log(map[], 0, multiset{}, multiset{}, true, true))
  }

  function Fresh(n: int): (ws: seq<Worker>)
    requires n >= 0
    ensures |ws| == n && forall i :: 0 <= i < n ==> ws[i] == Todo
  {
    seq(n, _ => Todo)
  }

  function Failures(ws: seq<Worker>): nat {
    if ws == [] then 0 else (if ws[0] == Done(false) then 1 else 0) + Failures(ws[1..])
  }

  predicate AllDone(ws: seq<Worker>) {
    forall i :: 0 <= i < |ws| ==> ws[i].Done?
  }

  /** The uniqueName of the current concurrentPodsResult. */
  function ResultName(s: State): Name {
    if s.load.Loaded? then Uuid(s.b) else Unnamed
  }

  /** The failed counter of the current concurrentPodsResult. */
  function ResultFailed(s: State): nat {
    if s.load.LoadFailed? then 1 else Failures(s.creators)
  }

  /** A pod reaches Running only if it exists and the PVC it mounts exists. */
  predicate CanRun(s: State, p: Pod) {
    p in s.cluster.pods && s.cluster.pods[p] >= 0 && s.cluster.pods[p] in s.cluster.pvcs
  }

  // Each family has a guard, which also says what outcomes the cluster can answer with, and an effect.

  predicate CanHead(c: Config, s: State, e: HeadEvent) {
    match e
    case Enter(_) => s.phase.Entry?
    case CreatePvc(ok, made) => s.phase.CreatingPvcs? && s.phase.i < c.Pvcs() && (ok ==> made)
    case StartFirstBatch => s.phase.CreatingPvcs? && s.phase.i >= c.Pvcs()
  }

  function StepHead(c: Config, s: State, e: HeadEvent): State
    requires CanHead(c, s, e)
  {
    match e
    case Enter(templateOk) =>
      if c.Accepted() && templateOk then s.(phase := CreatingPvcs(0))
      else s.(phase := Returned(false, Early)).Fail()
    case CreatePvc(ok, made) =>
      var i := s.phase.i;
      var s' := if made then s.(cluster := s.cluster.(pvcs := s.cluster.pvcs + {i})) else s;
      if ok then s'.(phase := CreatingPvcs(i + 1)) else s'.(phase := Returned(false, Early)).Fail()
    case StartFirstBatch => s.(phase := Batch)
  }

  predicate CanCreate(c: Config, s: State, e: CreateEvent) {
    && s.phase.Batch?
    && match e
       case LoadApp(_) => s.load.NotLoaded? && c.batch > 0
       case CreateCall(n, ok, made) => n < |s.creators| && s.creators[n].Todo? && (ok ==> made)
       case CreateWait(n, ok) => n < |s.creators| && s.creators[n].Called? && (ok ==> CanRun(s, Pod(Uuid(s.b), n)))
  }

  function MakePod(s: State, p: Pod, pvc: int): State {
    s.(cluster := s.cluster.(pods := s.cluster.pods[p := pvc]),
       log := s.log.(claimed := s.log.claimed[p := pvc], creations := s.log.creations + 1))
  }

  function StepCreate(c: Config, s: State, e: CreateEvent): State
    requires CanCreate(c, s, e)
  {
    match e
    case LoadApp(ok) =>
      if ok then s.(load := Loaded, creators := Fresh(c.batch)) else s.(load := LoadFailed).Fail()
    case CreateCall(n, ok, made) =>
      var s' := if made then MakePod(s, Pod(Uuid(s.b), n), s.b * c.batch + n) else s;
      s'.(creators := s.creators[n := if ok then Called else Done(false)],
          log := s'.log.(sound := s.log.sound && ok))
    case CreateWait(n, ok) =>
      s.(creators := s.creators[n := Done(ok)], log := s.log.(sound := s.log.sound && ok))
  }

  predicate CanDelete(s: State, e: DeleteEvent) {
    && (s.phase.Batch? || s.phase.Deleting?)
    && e.n < |s.deleters|
    && match e
       case DeleteCall(n, ok, _) => s.deleters[n].Todo? && (ok ==> Pod(s.target, n) in s.cluster.pods)
       case DeleteWait(n, ok, gone) => s.deleters[n].Called? && (ok ==> gone)
  }

  function StepDelete(s: State, e: DeleteEvent): State
    requires CanDelete(s, e)
  {
    var p := Pod(s.target, e.n);
    var log := s.log.(sound := s.log.sound && e.ok, deletesOk := s.log.deletesOk && e.ok);
    var s' := if e.gone then s.(cluster := s.cluster.(pods := s.cluster.pods - {p})) else s;
    match e
    case DeleteCall(n, ok, _) =>
      s'.(deleters := s.deleters[n := if ok then Called else Done(false)],
          log := log.(podDeletes := log.podDeletes + multiset{p}))
    case DeleteWait(n, ok, _) =>
      s'.(deleters := s.deleters[n := Done(ok)], log := log)
  }

  /** The start of deleteConcurrentPods on the current result: final deletion or cleanup. */
  function StartDelete(c: Config, s: State, exit: Exit): State
    requires c.batch > 0
  {
    s.(phase := Deleting(exit), deleters := Fresh(c.batch), target := ResultName(s), deleting := s.b)
  }

  predicate CanLoop(c: Config, s: State, e: LoopEvent) {
    && c.batch > 0
    && match e
       case Join => s.phase.Batch? && !s.load.NotLoaded? && AllDone(s.creators) && AllDone(s.deleters)
       case WaitPod(ok) =>
         s.phase.Waiting? && s.phase.i < c.batch && (ok ==> CanRun(s, Pod(ResultName(s), s.phase.i)))
       case NextBatch => s.phase.Waiting? && s.phase.i >= c.batch
  }

  function StepLoop(c: Config, s: State, e: LoopEvent): State
    requires CanLoop(c, s, e)
  {
    match e
    case Join =>
      if s.b == 0 then
        if ResultFailed(s) > 0 then StartDelete(c, s, Cleanup) else s.(phase := Waiting(0))
      else
        s.(phase := Waiting(0), errors := s.errors + ResultFailed(s) + Failures(s.deleters))
    case WaitPod(ok) =>
      if ok then s.(phase := Waiting(s.phase.i + 1))
      else StartDelete(c, s, Cleanup).Fail()
    case NextBatch =>
      if s.b + 1 < c.Batches() then
        s.(phase := Batch, b := s.b + 1, load := NotLoaded, creators := [],
           deleters := Fresh(c.batch), target := ResultName(s), deleting := s.b)
      else
        StartDelete(c, s, Normal)
  }

  predicate CanTail(c: Config, s: State, e: TailEvent) {
    match e
    case FinishDelete => s.phase.Deleting? && AllDone(s.deleters)
    case DeletePvc(ok, gone) =>
      s.phase.DeletingPvcs? && s.phase.i < c.Pvcs() && (ok ==> gone && s.phase.i in s.cluster.pvcs)
    case Finish => s.phase.DeletingPvcs? && s.phase.i >= c.Pvcs()
  }

  function StepTail(c: Config, s: State, e: TailEvent): State
    requires CanTail(c, s, e)
  {
    match e
    case FinishDelete =>
      s.(phase := DeletingPvcs(s.phase.exit, 0),
         errors := if s.phase.exit.Cleanup? then s.errors else s.errors + Failures(s.deleters))
    case DeletePvc(ok, gone) =>
      var DeletingPvcs(exit, i) := s.phase;
      s.(phase := DeletingPvcs(exit, i + 1),
         cluster := if gone then s.cluster.(pvcs := s.cluster.pvcs - {i}) else s.cluster,
         log := s.log.(pvcDeletes := s.log.pvcDeletes + multiset{i}, sound := s.log.sound && ok),
         errors := if ok || exit.Cleanup? then s.errors else s.errors + 1)
    case Finish =>
      s.(phase := Returned(s.phase.exit.Normal? && s.errors == 0, s.phase.exit))
  }

  predicate Enabled(c: Config, s: State, e: Event) {
    match e
    case Head(h) => CanHead(c, s, h)
    case Create(w) => CanCreate(c, s, w)
    case Delete(d) => CanDelete(s, d)
    case Loop(l) => CanLoop(c, s, l)
    case Tail(t) => CanTail(c, s, t)
  }

  function Step(c: Config, s: State, e: Event): State
    requires Enabled(c, s, e)
  {
    match e
    case Head(h) => StepHead(c, s, h)
    case Create(w) => StepCreate(c, s, w)
    case Delete(d) => StepDelete(s, d)
    case Loop(l) => StepLoop(c, s, l)
    case Tail(t) => StepTail(c, s, t)
  }

  // ---------------------------------------------------------------- invariant

  /** The deletion of the last result has begun. */
  predicate Closing(s: State) {
    s.phase.Deleting? || s.phase.DeletingPvcs? || (s.phase.Returned? && !s.phase.exit.Early?)
  }

  predicate Started(s: State) {
    s.phase.Batch? || s.phase.Waiting? || Closing(s)
  }

  /** The run got past the batch loop. */
  predicate Completed(s: State) {
    (s.phase.Deleting? || s.phase.DeletingPvcs? || s.phase.Returned?) && s.phase.exit.Normal?
  }

  ghost predicate Untouched(s: State) {
    && s.b == 0 && s.load == NotLoaded && s.creators == [] && s.deleters == [] && s.deleting == 0
    && s.errors == 0 && s.cluster.pods == map[] && s.log.claimed == map[] && s.log.creations == 0
    && s.log.podDeletes == multiset{} && s.log.pvcDeletes == multiset{} && s.log.deletesOk
  }

  ghost predicate Shape(c: Config, s: State) {
    && (!Started(s) ==> Untouched(s))
    && (s.phase.Entry? ==> s == Init())
    && (s.phase.CreatingPvcs? ==> c.Accepted() && s.phase.i <= c.Pvcs())
    && (s.phase.Returned? && s.phase.ok ==> s.phase.exit.Normal? && s.errors == 0)
    && (s.phase.Deleting? || s.phase.DeletingPvcs? ==> !s.phase.exit.Early?)
    && (Started(s) ==>
          && c.Accepted()
          && (s.b == 0 || s.b < c.Batches())
          && |s.creators| == (if s.load.Loaded? then c.batch else 0))
    && (s.phase.Batch? || s.phase.Waiting? ==>
          if s.b == 0 then s.deleters == [] && s.deleting == 0
          else |s.deleters| == c.batch && s.deleting == s.b - 1 && s.target == Uuid(s.b - 1))
    && (s.phase.Waiting? ==>
          && s.phase.i <= c.batch && !s.load.NotLoaded? && AllDone(s.creators) && AllDone(s.deleters)
          && (s.phase.i > 0 ==> s.load.Loaded?) && (s.load.LoadFailed? ==> s.errors > 0))
    && (Closing(s) ==>
          && |s.deleters| == c.batch && s.deleting == s.b && s.target == ResultName(s)
          && !s.load.NotLoaded? && AllDone(s.creators)
          && (!s.phase.Deleting? ==> AllDone(s.deleters)))
    && (Completed(s) ==> s.load.Loaded? && s.b + 1 >= c.Batches())
    && (s.phase.DeletingPvcs? ==> s.phase.i <= c.Pvcs())
  }

  /** Pods created so far: each batch's pods mount that batch's slice of the PVCs. */
  ghost predicate Placed(c: Config, s: State) {
    forall p :: p in s.log.claimed ==>
      && p.name.Uuid? && p.name.batch <= s.b && p.n < c.batch
      && (p.name.batch == s.b ==> p.n < |s.creators| && !s.creators[p.n].Todo?)
  }

  ghost predicate Indexed(c: Config, claimed: map<Pod, int>) {
    forall p :: p in claimed ==> p.name.Uuid? && claimed[p] == p.name.batch * c.batch + p.n
  }

  /** Every batch before the current one was created in full. */
  ghost predicate Covered(c: Config, s: State) {
    && (forall k: nat, n: nat :: k < s.b && n < c.batch ==> Pod(Uuid(k), n) in s.log.claimed)
    && (s.phase.Waiting? ==> forall n: nat :: n < s.phase.i ==> Pod(Uuid(s.b), n) in s.log.claimed)
    && (Completed(s) ==> forall n: nat :: n < c.batch ==> Pod(Uuid(s.b), n) in s.log.claimed)
  }

  ghost predicate Claims(c: Config, s: State) {
    && s.log.creations == |s.log.claimed|
    && (forall p :: p in s.cluster.pods ==> p in s.log.claimed && s.cluster.pods[p] == s.log.claimed[p])
    && Placed(c, s) && Indexed(c, s.log.claimed) && Covered(c, s)
  }

  function Attempts(c: Config, s: State, p: Pod): nat {
    if p.name == s.target && p.n < |s.deleters| then
      if s.deleters[p.n].Todo? then 0 else 1
    else if p.name.Uuid? && p.name.batch < s.deleting && p.n < c.batch then 1
    else 0
  }

  function PvcAttempts(c: Config, s: State, i: nat): nat {
    if s.phase.DeletingPvcs? && i < s.phase.i then 1
    else if s.phase.Returned? && !s.phase.exit.Early? && i < c.Pvcs() then 1
    else 0
  }

  ghost predicate Deletes(c: Config, s: State) {
    && (forall p :: s.log.podDeletes[p] == Attempts(c, s, p))
    && (forall i: nat :: s.log.pvcDeletes[i] == PvcAttempts(c, s, i))
  }

  /** While no deletion has failed, a deleted pod is gone. */
  ghost predicate Gone(s: State) {
    s.log.deletesOk ==> forall p :: p in s.cluster.pods ==>
      && !(p.name.Uuid? && p.name.batch < s.deleting)
      && !(p.name == s.target && p.n < |s.deleters| && s.deleters[p.n].Done?)
  }

  /** While nothing has failed, what exists is exactly what the program has created and not deleted. */
  ghost predicate Exact(c: Config, s: State) {
    && (forall i: nat :: i in s.cluster.pvcs ==> i < c.Pvcs())
    && ((s.phase.Waiting? && s.phase.i > 0) || Completed(s) ==> c.total > 0)
    && (s.log.sound ==>
      && s.log.deletesOk
      && (forall n: nat :: n < |s.creators| && !s.creators[n].Todo? ==>
            Pod(Uuid(s.b), n) in s.cluster.pods || (Closing(s) && n < |s.deleters| && !s.deleters[n].Todo?))
      && (forall n: nat :: n < |s.deleters| && s.deleters[n].Todo? ==> Pod(s.target, n) in s.cluster.pods)
      && (forall i: nat :: i in s.cluster.pvcs <==> PvcLow(s) <= i < PvcHigh(c, s)))
  }

  function PvcLow(s: State): nat {
    if s.phase.DeletingPvcs? then s.phase.i else 0
  }

  function PvcHigh(c: Config, s: State): nat {
    match s.phase
    case Entry => 0
    case CreatingPvcs(i) => i
    case Returned(_, _) => 0
    case _ => c.Pvcs()
  }

  /** A failure is always on record: in an error slot, in allErrors, or in the exit taken. */
  predicate Recorded(s: State) {
    || s.errors > 0
    || (s.phase.Batch? && (s.load.LoadFailed? || Failures(s.creators) + Failures(s.deleters) > 0))
    || (s.phase.Deleting? && Failures(s.deleters) > 0)
    || (s.phase.Deleting? && s.phase.exit.Cleanup?)
    || (s.phase.DeletingPvcs? && s.phase.exit.Cleanup?)
    || (s.phase.Returned? && !s.phase.ok)
  }

  ghost predicate Tracked(s: State) {
    s.log.sound <==> !Recorded(s)
  }

  ghost predicate Inv(c: Config, s: State) {
    Shape(c, s) && Claims(c, s) && Deletes(c, s) && Gone(s) && Exact(c, s) && Tracked(s)
  }

  lemma {:induction false} FailuresUpdate(ws: seq<Worker>, n: nat, w: Worker)
    requires n < |ws| && ws[n] != Done(false)
    ensures Failures(ws[n := w]) == Failures(ws) + (if w == Done(false) then 1 else 0)
  {
    if n > 0 {
      FailuresUpdate(ws[1..], n - 1, w);
      assert ws[n := w][1..] == ws[1..][n - 1 := w];
    } else {
      assert ws[n := w][1..] == ws[1..];
    }
  }

  lemma {:induction false} FailuresNone(ws: seq<Worker>)
    ensures Failures(ws) > 0 <==> exists i :: 0 <= i < |ws| && ws[i] == Done(false)
  {
    if ws != [] {
      FailuresNone(ws[1..]);
      assert forall i :: 1 <= i < |ws| ==> ws[i] == ws[1..][i - 1];
    }
  }

  lemma InvInit(c: Config)
    ensures Inv(c, Init())
  {
  }

  lemma HeadKeepsShapeClaims(c: Config, s: State, e: HeadEvent)
    requires Shape(c, s) && Claims(c, s) && CanHead(c, s, e)
    ensures var s' := StepHead(c, s, e); Shape(c, s') && Claims(c, s')
  {
  }

  lemma HeadKeepsDeletesGone(c: Config, s: State, e: HeadEvent)
    requires Shape(c, s) && Deletes(c, s) && Gone(s) && CanHead(c, s, e)
    ensures var s' := StepHead(c, s, e); Deletes(c, s') && Gone(s')
  {
  }

  lemma HeadKeepsExactTracked(c: Config, s: State, e: HeadEvent)
    requires Shape(c, s) && Exact(c, s) && Tracked(s) && CanHead(c, s, e)
    ensures var s' := StepHead(c, s, e); Exact(c, s') && Tracked(s')
  {
  }

  lemma CreateKeepsShape(c: Config, s: State, e: CreateEvent)
    requires Shape(c, s) && Claims(c, s) && CanCreate(c, s, e)
    ensures var s' := StepCreate(c, s, e); Shape(c, s')
  {
  }

  lemma WorkerKeepsPlaced(c: Config, s: State, e: CreateEvent)
    requires Placed(c, s) && CanCreate(c, s, e) && !e.LoadApp? && |s.creators| <= c.batch
    ensures Placed(c, StepCreate(c, s, e))
  {
  }

  lemma WorkerKeepsClaims(c: Config, s: State, e: CreateEvent)
    requires Claims(c, s) && CanCreate(c, s, e) && !e.LoadApp? && |s.creators| <= c.batch
    ensures Claims(c, StepCreate(c, s, e))
  {
    WorkerKeepsPlaced(c, s, e);
    assert e.CreateCall? ==> Pod(Uuid(s.b), e.n) !in s.log.claimed;
  }

  lemma CreateKeepsClaims(c: Config, s: State, e: CreateEvent)
    requires Shape(c, s) && Claims(c, s) && CanCreate(c, s, e)
    ensures Claims(c, StepCreate(c, s, e))
  {
    if !e.LoadApp? {
      WorkerKeepsClaims(c, s, e);
    }
  }

  lemma CreateKeepsDeletesGone(c: Config, s: State, e: CreateEvent)
    requires Shape(c, s) && Deletes(c, s) && Gone(s) && CanCreate(c, s, e)
    ensures var s' := StepCreate(c, s, e); Deletes(c, s') && Gone(s')
  {
  }

  lemma CreateKeepsExact(c: Config, s: State, e: CreateEvent)
    requires Shape(c, s) && Exact(c, s) && Tracked(s) && CanCreate(c, s, e)
    ensures Exact(c, StepCreate(c, s, e))
  {
  }

  lemma CreateKeepsTracked(c: Config, s: State, e: CreateEvent)
    requires Shape(c, s) && Tracked(s) && CanCreate(c, s, e)
    ensures var s' := StepCreate(c, s, e); Tracked(s')
  {
    match e
    case LoadApp(_) => FailuresNone(StepCreate(c, s, e).creators);
    case CreateCall(n, ok, _) => FailuresUpdate(s.creators, n, if ok then Called else Done(false));
    case CreateWait(n, ok) => FailuresUpdate(s.creators, n, Done(ok));
  }

  lemma DeleteKeepsShape(c: Config, s: State, e: DeleteEvent)
    requires Shape(c, s) && CanDelete(s, e)
    ensures var s' := StepDelete(s, e); Shape(c, s')
  {
  }

  lemma DeleteKeepsClaims(c: Config, s: State, e: DeleteEvent)
    requires Shape(c, s) && Claims(c, s) && CanDelete(s, e)
    ensures var s' := StepDelete(s, e); Claims(c, s')
  {
  }

  lemma AttemptsAfter(c: Config, s: State, e: DeleteEvent, p: Pod)
    requires CanDelete(s, e)
    ensures Attempts(c, StepDelete(s, e), p) ==
            Attempts(c, s, p) + if e.DeleteCall? && p == Pod(s.target, e.n) then 1 else 0
  {
  }

  lemma DeleteKeepsDeletes(c: Config, s: State, e: DeleteEvent)
    requires Deletes(c, s) && CanDelete(s, e)
    ensures Deletes(c, StepDelete(s, e))
  {
    var s' := StepDelete(s, e);
    forall p
      ensures s'.log.podDeletes[p] == Attempts(c, s', p)
    {
      AttemptsAfter(c, s, e, p);
    }
    assert forall i: nat :: PvcAttempts(c, s', i) == PvcAttempts(c, s, i);
  }

  lemma DeleteKeepsGone(s: State, e: DeleteEvent)
    requires Gone(s) && CanDelete(s, e)
    ensures Gone(StepDelete(s, e))
  {
  }

  lemma DeleteKeepsExact(c: Config, s: State, e: DeleteEvent)
    requires Shape(c, s) && Exact(c, s) && Tracked(s) && CanDelete(s, e)
    ensures Exact(c, StepDelete(s, e))
  {
  }

  lemma DeleteKeepsTracked(c: Config, s: State, e: DeleteEvent)
    requires Shape(c, s) && Tracked(s) && CanDelete(s, e)
    ensures var s' := StepDelete(s, e); Tracked(s')
  {
    match e
    case DeleteCall(n, ok, _) => FailuresUpdate(s.deleters, n, if ok then Called else Done(false));
    case DeleteWait(n, ok, _) => FailuresUpdate(s.deleters, n, Done(ok));
  }

  lemma LoopKeepsShape(c: Config, s: State, e: LoopEvent)
    requires Shape(c, s) && Claims(c, s) && CanLoop(c, s, e)
    ensures var s' := StepLoop(c, s, e); Shape(c, s')
  {
  }

  lemma NextBatchClaims(c: Config, s: State)
    requires Shape(c, s) && Claims(c, s) && CanLoop(c, s, NextBatch)
    ensures Claims(c, StepLoop(c, s, NextBatch))
  {
  }

  lemma WaitClaims(c: Config, s: State, ok: bool)
    requires Shape(c, s) && Claims(c, s) && CanLoop(c, s, WaitPod(ok))
    ensures Claims(c, StepLoop(c, s, WaitPod(ok)))
  {
  }

  lemma LoopKeepsClaims(c: Config, s: State, e: LoopEvent)
    requires Shape(c, s) && Claims(c, s) && CanLoop(c, s, e)
    ensures Claims(c, StepLoop(c, s, e))
  {
    match e
    case Join =>
    case WaitPod(ok) => WaitClaims(c, s, ok);
    case NextBatch => NextBatchClaims(c, s);
  }

  lemma LoopKeepsDeletes(c: Config, s: State, e: LoopEvent)
    requires Shape(c, s) && Deletes(c, s) && CanLoop(c, s, e)
    ensures var s' := StepLoop(c, s, e); Deletes(c, s')
  {
  }

  lemma LoopKeepsGone(c: Config, s: State, e: LoopEvent)
    requires Shape(c, s) && Claims(c, s) && Gone(s) && CanLoop(c, s, e)
    ensures var s' := StepLoop(c, s, e); Gone(s')
  {
  }

  lemma JoinKeepsExact(c: Config, s: State)
    requires Shape(c, s) && Exact(c, s) && Tracked(s) && CanLoop(c, s, Join)
    ensures Exact(c, StepLoop(c, s, Join))
  {
  }

  lemma WaitKeepsExact(c: Config, s: State, ok: bool)
    requires Shape(c, s) && Exact(c, s) && CanLoop(c, s, WaitPod(ok))
    ensures Exact(c, StepLoop(c, s, WaitPod(ok)))
  {
  }

  lemma NextKeepsExact(c: Config, s: State)
    requires Shape(c, s) && Exact(c, s) && CanLoop(c, s, NextBatch)
    ensures Exact(c, StepLoop(c, s, NextBatch))
  {
  }

  lemma LoopKeepsExact(c: Config, s: State, e: LoopEvent)
    requires Shape(c, s) && Exact(c, s) && Tracked(s) && CanLoop(c, s, e)
    ensures Exact(c, StepLoop(c, s, e))
  {
    match e
    case Join => JoinKeepsExact(c, s);
    case WaitPod(ok) => WaitKeepsExact(c, s, ok);
    case NextBatch => NextKeepsExact(c, s);
  }

  lemma LoopKeepsTracked(c: Config, s: State, e: LoopEvent)
    requires Shape(c, s) && Tracked(s) && CanLoop(c, s, e)
    ensures var s' := StepLoop(c, s, e); Tracked(s')
  {
    FailuresNone(StepLoop(c, s, e).deleters);
  }

  lemma TailKeepsShapeClaims(c: Config, s: State, e: TailEvent)
    requires Shape(c, s) && Claims(c, s) && CanTail(c, s, e)
    ensures var s' := StepTail(c, s, e); Shape(c, s') && Claims(c, s')
  {
  }

  lemma TailKeepsDeletesGone(c: Config, s: State, e: TailEvent)
    requires Shape(c, s) && Claims(c, s) && Deletes(c, s) && Gone(s) && CanTail(c, s, e)
    ensures var s' := StepTail(c, s, e); Deletes(c, s') && Gone(s')
  {
  }

  lemma TailKeepsExact(c: Config, s: State, e: TailEvent)
    requires Shape(c, s) && Claims(c, s) && Gone(s) && Exact(c, s) && CanTail(c, s, e)
    ensures Exact(c, StepTail(c, s, e))
  {
  }

  lemma TailKeepsTracked(c: Config, s: State, e: TailEvent)
    requires Shape(c, s) && Tracked(s) && CanTail(c, s, e)
    ensures Tracked(StepTail(c, s, e))
  {
  }

  lemma InvStep(c: Config, s: State, e: Event)
    requires Inv(c, s) && Enabled(c, s, e)
    ensures Inv(c, Step(c, s, e))
  {
    match e
    case Head(h) =>
      HeadKeepsShapeClaims(c, s, h); HeadKeepsDeletesGone(c, s, h); HeadKeepsExactTracked(c, s, h);
    case Create(w) =>
      CreateKeepsShape(c, s, w); CreateKeepsClaims(c, s, w);
      CreateKeepsDeletesGone(c, s, w); CreateKeepsExact(c, s, w); CreateKeepsTracked(c, s, w);
    case Delete(d) =>
      DeleteKeepsShape(c, s, d); DeleteKeepsClaims(c, s, d); DeleteKeepsDeletes(c, s, d);
      DeleteKeepsGone(s, d); DeleteKeepsExact(c, s, d); DeleteKeepsTracked(c, s, d);
    case Loop(l) =>
      LoopKeepsShape(c, s, l); LoopKeepsClaims(c, s, l); LoopKeepsDeletes(c, s, l);
      LoopKeepsGone(c, s, l); LoopKeepsExact(c, s, l); LoopKeepsTracked(c, s, l);
    case Tail(t) =>
      TailKeepsShapeClaims(c, s, t); TailKeepsDeletesGone(c, s, t); TailKeepsExact(c, s, t);
      TailKeepsTracked(c, s, t);
  }
}
