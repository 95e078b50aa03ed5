/**
  The reference tracker of snapshot-backed CephFS volumes (internal/util/reftracker): a set of typed
  keys stored in one RADOS object, updated by any number of writers that take no lock.  A writer reads
  the object's version, reads the keys it cares about, and writes under the condition that the version
  is unchanged.

  The writers make it a transition system whose steps are single RADOS operations.
*/
module RefTracker {
  import opened Options
  import opened Sets

  datatype RefType = Normal | Mask

  type Refs = map<string, RefType>

  // refcount is a uint32
  const LIMIT: nat := 0x1_0000_0000

  function Uint32(n: nat): nat {
    n % 0x1_0000_0000
  }

  // ---------------------------------------------------------------- what Add and Remove promise

  datatype Request = Add(keys: set<string>) | Remove(refs: Refs)

  ghost function NormalKeys(m: Refs): set<string> {
    set k | k in m && m[k] == Normal
  }

  function AllNormal(keys: set<string>): Refs {
    map k | k in keys :: Normal
  }

  /** Missing keys are tracked; keys already tracked, masked or not, are left alone. */
  function Added(m: Refs, keys: set<string>): Refs {
    m + AllNormal(keys - m.Keys)
  }

  /** A Normal removal forgets the key, a Mask removal keeps it but stops counting it. */
  function Removed(m: Refs, refs: Refs): Refs {
    (m - (set k | k in refs && refs[k] == Normal)) + map k | k in refs && refs[k] == Mask :: Mask
  }

  /** The tracker as one atomic object: its new contents, and the boolean the call answers with. */
  ghost function Atomic(a: Option<Refs>, r: Request): (Option<Refs>, bool) {
    match r
    case Add(keys) =>
      if a.None? then (Some(AllNormal(keys)), true) else (Some(Added(a.value, keys)), false)
    case Remove(refs) =>
      if a.None? then (None, true)
      else if NormalKeys(Removed(a.value, refs)) == {} then (None, true)
      else (Some(Removed(a.value, refs)), false)
  }

  /** Adding, key by key: every key is tracked afterwards, what was tracked stays as it was, masks included. */
  lemma AtomicAdd(a: Option<Refs>, keys: set<string>)
    ensures var (after, created) := Atomic(a, Add(keys));
            && (created <==> a.None?) && after.Some?
            && forall k :: (k in after.value <==> k in keys || (a.Some? && k in a.value)) &&
                 (k in after.value ==> after.value[k] == if a.Some? && k in a.value then a.value[k] else Normal)
  {
  }

  /**
    Removing, key by key: a Normal removal forgets its key, a Mask leaves its key masked, and the whole
    tracker is gone exactly when no Normal key is left.
  */
  lemma AtomicRemove(m: Refs, refs: Refs)
    ensures var (after, deleted) := Atomic(Some(m), Remove(refs));
            && (deleted <==> after.None?)
            && (deleted <==> forall k :: k in m && m[k] == Normal ==> k in refs)
            && (after.Some? ==> forall k ::
                  && (k in after.value <==> if k in refs then refs[k] == Mask else k in m)
                  && (k in after.value ==> after.value[k] == if k in refs then Mask else m[k]))
    ensures Atomic(None, Remove(refs)) == (None, true)
  {
    var m' := Removed(m, refs);
    assert forall k :: k in m' <==> if k in refs then refs[k] == Mask else k in m;
    assert forall k :: k in m' ==> m'[k] == if k in refs then Mask else m[k];
    if k :| k in m && m[k] == Normal && k !in refs {
      assert k in NormalKeys(m');
    }
    if k :| k in NormalKeys(m') {
      assert k in m && m[k] == Normal && k !in refs;
    }
  }

  /** The example in the documentation of the tracker (internal/util/reftracker/reftracker.go:42-123). */
  lemma DocumentedExample()
    ensures
      var one := Atomic(None, Add({"1", "2"}));
      var two := Atomic(one.0, Add({"1", "2", "3"}));
      var three := Atomic(two.0, Remove(map["1" := Normal, "2" := Mask]));
      var four := Atomic(three.0, Add({"2"}));
      && one == (Some(map["1" := Normal, "2" := Normal]), true)
      && two == (Some(map["1" := Normal, "2" := Normal, "3" := Normal]), false)
      && three == (Some(map["2" := Mask, "3" := Normal]), false)
      && four == (three.0, false)
      && Atomic(four.0, Remove(map["3" := Normal])) == (None, true)
  {
    var m1: Refs := map["1" := Normal, "2" := Normal];
    var m2: Refs := m1["3" := Normal];
    var m3: Refs := map["2" := Mask, "3" := Normal];
    AtomicAdd(None, {"1", "2"});
    assert Atomic(None, Add({"1", "2"})).0.value == m1;
    AtomicAdd(Some(m1), {"1", "2", "3"});
    assert Atomic(Some(m1), Add({"1", "2", "3"})).0.value == m2;
    AtomicRemove(m2, map["1" := Normal, "2" := Mask]);
    assert m2["3"] == Normal;
    assert Atomic(Some(m2), Remove(map["1" := Normal, "2" := Mask])).0.value == m3;
    AtomicAdd(Some(m3), {"2"});
    assert Atomic(Some(m3), Add({"2"})).0.value == m3;
    AtomicRemove(m3, map["3" := Normal]);
  }

  // ---------------------------------------------------------------- the version 1 layout

  /** The RADOS object: its version, the stored refcount and the omap. */
  datatype Object = Object(ver: nat, count: nat, omap: Refs)

  datatype Write = Put(count: nat, drop: set<string>, put: Refs) | Delete

  /** What v1.Add and v1.Remove decide from the refcount and the keys they have read. */
  datatype Decision = NoChange | Commit(w: Write) | Refuse

  function Keys(r: Request): set<string> {
    match r
    case Add(keys) => keys
    case Remove(refs) => refs.Keys
  }

  function Found(omap: Refs, keys: set<string>): Refs {
    map k | k in keys && k in omap :: omap[k]
  }

  function ToAdd(found: Refs, keys: set<string>): Refs {
    AllNormal(keys - found.Keys)
  }

  function DecideAdd(total: nat, found: Refs, keys: set<string>): Decision {
    var toAdd := ToAdd(found, keys);
    var newCount := Uint32(total + Uint32(|toAdd|));
    if |toAdd| == 0 then NoChange
    else if newCount < total then Refuse
    else Commit(Put(newCount, {}, toAdd))
  }

  function ToDrop(found: Refs, refs: Refs): set<string> {
    set k | k in refs && k in found && refs[k] == Normal
  }

  function ToSet(found: Refs, refs: Refs): Refs {
    map k | k in refs && refs[k] == Mask && !(k in found && found[k] == Mask) :: Mask
  }

  function Uncounted(found: Refs, refs: Refs): set<string> {
    set k | k in refs && k in found && found[k] == Normal
  }

  function DecideRemove(total: nat, found: Refs, refs: Refs): Decision {
    var drop, put, less := ToDrop(found, refs), ToSet(found, refs), |Uncounted(found, refs)|;
    if |drop| == 0 && |put| == 0 then NoChange
    else if less > total then Refuse
    else if total - less == 0 then Commit(Delete)
    else Commit(Put(total - less, drop, put))
  }

  function Decide(total: nat, found: Refs, r: Request): Decision {
    match r
    case Add(keys) => DecideAdd(total, found, keys)
    case Remove(refs) => DecideRemove(total, found, refs)
  }

  /** What v1.Init writes. */
  function Created(keys: set<string>, ver: nat): Object {
    Object(ver, Uint32(|keys|), AllNormal(keys))
  }

  function Perform(o: Object, w: Write, ver: nat): Option<Object> {
    match w
    case Delete => None
    case Put(count, drop, put) => Some(Object(ver, count, (o.omap - drop) + put))
  }

  // ---------------------------------------------------------------- writers and their steps

  datatype Result = Ok(answer: bool) | Error | Crash

  datatype Writer =
    | Started(r: Request)                          // about to read the version
    | Creating(r: Request)                         // found no object, about to create it
    | Versioned(r: Request, gen: nat)              // about to read the keys
    | Deciding(r: Request, gen: nat, w: Write)     // about to write
    | Finished(r: Request, result: Result)

  /** An operation that has taken effect, with the answer the atomic object gives it. */
  datatype Entry = Entry(op: nat, r: Request, answer: bool)

  datatype State = State(
    obj: Option<Object>,
    clock: nat,                  // last version RADOS has handed out
    writers: map<nat, Writer>,   // one per operation ever started
    log: seq<Entry>              // history: operations in the order in which they took effect
  )

  /** How a RADOS operation ends: answered, lost before or after taking effect. */
  datatype Fate = Served | Lost | LostAfterEffect

  datatype Event =
    | Start(op: nat, r: Request)
    | ReadVersion(op: nat, fate: Fate)
    | CreateObject(op: nat, fate: Fate)
    | ReadKeys(op: nat, fate: Fate)
    | WriteObject(op: nat, fate: Fate)

  function Init(): State {
    State(None, 0, map[], [])
  }

  predicate Enabled(s: State, e: Event) {
    match e
    case Start(op, r) => op !in s.writers && |Keys(r)| < LIMIT
    case ReadVersion(op, fate) => op in s.writers && s.writers[op].Started? && !fate.LostAfterEffect?
    case CreateObject(op, fate) => op in s.writers && s.writers[op].Creating? && s.writers[op].r.Add?
    case ReadKeys(op, fate) => op in s.writers && s.writers[op].Versioned? && !fate.LostAfterEffect?
    case WriteObject(op, fate) => op in s.writers && s.writers[op].Deciding?
  }

  function Goto(s: State, op: nat, w: Writer): State {
    s.(writers := s.writers[op := w])
  }

  function Done(s: State, op: nat, r: Request, result: Result): State {
    Goto(s, op, Finished(r, result))
  }

  /** What the caller learns of an operation that took effect. */
  function Reply(fate: Fate, answer: bool): Result {
    if fate.Served? then Ok(answer) else Error
  }

  /** The operation takes effect and ends. */
  function Effect(s: State, op: nat, r: Request, answer: bool, obj: Option<Object>, clock: nat, result: Result): State {
    State(obj, clock, s.writers[op := Finished(r, result)], s.log + [Entry(op, r, answer)])
  }

  function StepReadVersion(s: State, op: nat, r: Request, fate: Fate): State {
    if fate.Lost? then Done(s, op, r, Error)
    else if s.obj.Some? then Goto(s, op, Versioned(r, s.obj.value.ver))
    else if r.Add? then Goto(s, op, Creating(r))
    else Effect(s, op, r, true, s.obj, s.clock, Ok(true))
  }

  function StepCreate(s: State, op: nat, r: Request, fate: Fate): State
    requires r.Add?
  {
    if fate.Lost? || s.obj.Some? then Done(s, op, r, Error)
    else
      Effect(s, op, r, true, Some(Created(r.keys, s.clock + 1)), s.clock + 1, Reply(fate, true))
  }

  /**
    A failed keyed read is reported as stale only when the versions differ.  Any other failure, a
    missing object included, leaves the caller with neither a result nor an error, and it goes on to
    use the result.
  */
  function StepReadKeys(s: State, op: nat, r: Request, gen: nat, fate: Fate): State {
    if fate.Lost? || s.obj.None? then Done(s, op, r, Crash)
    else if s.obj.value.ver != gen then Done(s, op, r, Error)
    else Act(s, op, r, gen, Decide(s.obj.value.count, Found(s.obj.value.omap, Keys(r)), r))
  }

  function Act(s: State, op: nat, r: Request, gen: nat, d: Decision): State {
    match d
    case NoChange => Effect(s, op, r, false, s.obj, s.clock, Ok(false))
    case Refuse => Done(s, op, r, Error)
    case Commit(w) => Goto(s, op, Deciding(r, gen, w))
  }

  function StepWrite(s: State, op: nat, r: Request, gen: nat, w: Write, fate: Fate): State {
    if fate.Lost? || s.obj.None? || s.obj.value.ver != gen then Done(s, op, r, Error)
    else
      Effect(s, op, r, w.Delete?, Perform(s.obj.value, w, s.clock + 1), s.clock + 1,
             Reply(fate, w.Delete?))
  }

  function Step(s: State, e: Event): State
    requires Enabled(s, e)
  {
    match e
    case Start(op, r) => Goto(s, op, if Keys(r) == {} then Finished(r, Error) else Started(r))
    case ReadVersion(op, fate) => StepReadVersion(s, op, s.writers[op].r, fate)
    case CreateObject(op, fate) => StepCreate(s, op, s.writers[op].r, fate)
    case ReadKeys(op, fate) => StepReadKeys(s, op, s.writers[op].r, s.writers[op].gen, fate)
    case WriteObject(op, fate) => StepWrite(s, op, s.writers[op].r, s.writers[op].gen, s.writers[op].w, fate)
  }

  ghost predicate IsRun(states: seq<State>, events: seq<Event>) {
    && |states| == |events| + 1
    && states[0] == Init()
    && forall i :: 0 <= i < |events| ==> Enabled(states[i], events[i]) && states[i + 1] == Step(states[i], events[i])
  }

  // ---------------------------------------------------------------- a write is the atomic operation

  /** The stored refcount is the number of Normal keys, and an object without any does not exist. */
  ghost predicate Consistent(o: Object) {
    0 < o.count < LIMIT && o.count == |NormalKeys(o.omap)|
  }

  ghost function Contents(obj: Option<Object>): Option<Refs> {
    if obj.None? then None else Some(obj.value.omap)
  }

  lemma AddedNormal(m: Refs, keys: set<string>)
    ensures NormalKeys(Added(m, keys)) == NormalKeys(m) + (keys - m.Keys) && NormalKeys(m) !! keys - m.Keys
  {
  }

  lemma AddedCount(m: Refs, keys: set<string>)
    ensures |NormalKeys(Added(m, keys))| == |NormalKeys(m)| + |keys - m.Keys|
    ensures |keys - m.Keys| <= |keys|
  {
    AddedNormal(m, keys);
    SubsetSize(keys - m.Keys, keys);
  }

  lemma NewKeys(m: Refs, keys: set<string>)
    ensures ToAdd(Found(m, keys), keys) == AllNormal(keys - m.Keys)
    ensures |AllNormal(keys - m.Keys)| == |keys - m.Keys|
  {
    assert keys - Found(m, keys).Keys == keys - m.Keys;
    assert AllNormal(keys - m.Keys).Keys == keys - m.Keys;
  }

  lemma AddChoice(total: nat, found: Refs, keys: set<string>, n: nat)
    requires total < LIMIT && n < LIMIT && |ToAdd(found, keys)| == n
    ensures DecideAdd(total, found, keys) ==
              if n == 0 then NoChange
              else if total + n >= LIMIT then Refuse
              else Commit(Put(total + n, {}, ToAdd(found, keys)))
  {
  }

  /** The decision of v1.Add carries out the atomic Add, unless the refcount would overflow. */
  lemma AddDecision(o: Object, keys: set<string>, ver: nat)
    requires Consistent(o) && |keys| < LIMIT
    ensures var d := DecideAdd(o.count, Found(o.omap, keys), keys);
            && (d.NoChange? ==> Added(o.omap, keys) == o.omap)
            && (d.Commit? ==>
                  var o' := Perform(o, d.w, ver);
                  d.w.Put? && o'.value.omap == Added(o.omap, keys) && Consistent(o'.value) && o'.value.ver == ver)
            && (d.Refuse? <==> |NormalKeys(Added(o.omap, keys))| >= 0x1_0000_0000)
  {
    NewKeys(o.omap, keys);
    AddedCount(o.omap, keys);
    AddChoice(o.count, Found(o.omap, keys), keys, |keys - o.omap.Keys|);
    assert o.omap - {} == o.omap;
    if |keys - o.omap.Keys| == 0 {
      assert Added(o.omap, keys) == o.omap;
    }
  }

  lemma RemovedCount(m: Refs, refs: Refs)
    ensures var less := Uncounted(Found(m, refs.Keys), refs);
            && |less| <= |NormalKeys(m)|
            && |NormalKeys(Removed(m, refs))| == |NormalKeys(m)| - |less|
  {
    var less := Uncounted(Found(m, refs.Keys), refs);
    SubsetSize(less, NormalKeys(m));
    assert NormalKeys(Removed(m, refs)) == NormalKeys(m) - less;
  }

  lemma RemovedContents(m: Refs, refs: Refs)
    ensures var found := Found(m, refs.Keys);
            && (m - ToDrop(found, refs)) + ToSet(found, refs) == Removed(m, refs)
            && (ToDrop(found, refs) == {} && ToSet(found, refs) == map[] ==> Removed(m, refs) == m)
  {
  }

  /** The decision of v1.Remove carries out the atomic Remove, and never finds the refcount too small. */
  lemma RemoveDecision(o: Object, refs: Refs, ver: nat)
    requires Consistent(o)
    ensures var d := DecideRemove(o.count, Found(o.omap, refs.Keys), refs);
            && !d.Refuse?
            && (d.NoChange? ==> Removed(o.omap, refs) == o.omap)
            && (d.Commit? && d.w.Put? ==>
                  var o' := Perform(o, d.w, ver);
                  o'.value.omap == Removed(o.omap, refs) && Consistent(o'.value) && o'.value.ver == ver)
            && (d.Commit? && d.w.Delete? <==> NormalKeys(Removed(o.omap, refs)) == {})
  {
    RemovedCount(o.omap, refs);
    RemovedContents(o.omap, refs);
  }

  lemma DecisionIsAtomic(o: Object, r: Request, ver: nat)
    requires Consistent(o) && |Keys(r)| < LIMIT
    ensures var d := Decide(o.count, Found(o.omap, Keys(r)), r);
            && (d.NoChange? ==> Atomic(Some(o.omap), r) == (Some(o.omap), false))
            && (d.Commit? ==>
                  && Atomic(Some(o.omap), r) == (Contents(Perform(o, d.w, ver)), d.w.Delete?)
                  && (d.w.Put? ==> Consistent(Perform(o, d.w, ver).value)))
  {
    match r
    case Add(keys) => AddDecision(o, keys, ver);
    case Remove(refs) =>
      RemoveDecision(o, refs, ver);
      if NormalKeys(Removed(o.omap, refs)) == {} {
        assert Removed(o.omap, refs) != o.omap;
      }
  }

  // ---------------------------------------------------------------- linearizability

  /** The atomic object after a sequence of operations. */
  ghost function After(log: seq<Entry>): Option<Refs> {
    if log == [] then None else Atomic(After(log[..|log| - 1]), log[|log| - 1].r).0
  }

  /** Every operation in the log was answered as the atomic object would answer it. */
  ghost predicate Legal(log: seq<Entry>) {
    log == [] ||
    var prior, last := log[..|log| - 1], log[|log| - 1];
    Legal(prior) && last.answer == Atomic(After(prior), last.r).1
  }

  lemma LegalAppend(log: seq<Entry>, e: Entry)
    requires Legal(log) && e.answer == Atomic(After(log), e.r).1
    ensures Legal(log + [e]) && After(log + [e]) == Atomic(After(log), e.r).0
  {
  }

  ghost predicate GoodObject(s: State) {
    s.obj.Some? ==> Consistent(s.obj.value) && s.obj.value.ver <= s.clock
  }

  /** A writer that has read the current version knows what the current object calls for. */
  ghost predicate GoodWriter(s: State, w: Writer) {
    && |Keys(w.r)| < LIMIT
    && (!w.Finished? ==> Keys(w.r) != {})
    && (w.Creating? ==> w.r.Add?)
    && (w.Versioned? || w.Deciding? ==> w.gen <= s.clock)
    && (w.Deciding? && s.obj.Some? && s.obj.value.ver == w.gen ==>
          Decide(s.obj.value.count, Found(s.obj.value.omap, Keys(w.r)), w.r) == Commit(w.w))
  }

  /** Each logged operation has finished and was logged once; each acknowledged one is logged. */
  ghost predicate GoodLog(s: State) {
    && (forall i :: 0 <= i < |s.log| ==>
          var e := s.log[i];
          && e.op in s.writers && s.writers[e.op].Finished? && s.writers[e.op].r == e.r
          && (s.writers[e.op].result == Ok(e.answer) || s.writers[e.op].result == Error))
    && (forall i, j :: 0 <= i < j < |s.log| ==> s.log[i].op != s.log[j].op)
    && (forall op :: op in s.writers && s.writers[op].Finished? && s.writers[op].result.Ok? ==>
          Entry(op, s.writers[op].r, s.writers[op].result.answer) in s.log)
  }

  ghost predicate GoodWriters(s: State) {
    forall op :: op in s.writers ==> GoodWriter(s, s.writers[op])
  }

  ghost predicate GoodHistory(s: State) {
    Legal(s.log) && After(s.log) == Contents(s.obj)
  }

  ghost predicate Inv(s: State) {
    GoodObject(s) && GoodWriters(s) && GoodLog(s) && GoodHistory(s)
  }

  lemma GotoKeeps(s: State, op: nat, w: Writer)
    requires Inv(s) && GoodWriter(s, w)
    requires op !in s.writers || !s.writers[op].Finished?
    requires w.Finished? ==> !w.result.Ok?
    ensures Inv(Goto(s, op, w))
  {
  }

  lemma LogKeeps(s: State, op: nat, r: Request, answer: bool, obj: Option<Object>, clock: nat, result: Result)
    requires GoodLog(s) && op in s.writers && !s.writers[op].Finished? && (result == Ok(answer) || result == Error)
    ensures GoodLog(Effect(s, op, r, answer, obj, clock, result))
  {
  }

  /** An operation takes effect and ends, the object moving as the atomic one does. */
  lemma EffectKeeps(s: State, op: nat, r: Request, answer: bool, obj: Option<Object>, clock: nat, result: Result)
    requires Inv(s) && op in s.writers && !s.writers[op].Finished? && s.writers[op].r == r
    requires Atomic(Contents(s.obj), r) == (Contents(obj), answer)
    requires (result == Ok(answer) || result == Error)
    requires obj.Some? ==> Consistent(obj.value) && obj.value.ver <= clock
    requires (obj == s.obj && clock == s.clock) || (clock > s.clock && (obj.Some? ==> obj.value.ver == clock))
    ensures Inv(Effect(s, op, r, answer, obj, clock, result))
  {
    var s' := Effect(s, op, r, answer, obj, clock, result);
    LegalAppend(s.log, Entry(op, r, answer));
    LogKeeps(s, op, r, answer, obj, clock, result);
    forall o | o in s'.writers
      ensures GoodWriter(s', s'.writers[o])
    {
      assert o == op || (s'.writers[o] == s.writers[o] && GoodWriter(s, s.writers[o]));
    }
  }

  ghost predicate Running(s: State, op: nat, r: Request) {
    op in s.writers && !s.writers[op].Finished? && s.writers[op].r == r
  }

  lemma ReadVersionKeeps(s: State, op: nat, r: Request, fate: Fate)
    requires Inv(s) && Running(s, op, r)
    ensures Inv(StepReadVersion(s, op, r, fate))
  {
    if fate.Lost? {
      GotoKeeps(s, op, Finished(r, Error));
    } else if s.obj.Some? {
      GotoKeeps(s, op, Versioned(r, s.obj.value.ver));
    } else if r.Add? {
      GotoKeeps(s, op, Creating(r));
    } else {
      EffectKeeps(s, op, r, true, s.obj, s.clock, Ok(true));
    }
  }

  lemma CreatedConsistent(keys: set<string>, ver: nat)
    requires 0 < |keys| < LIMIT
    ensures Consistent(Created(keys, ver))
  {
    assert NormalKeys(AllNormal(keys)) == keys;
  }

  lemma CreatedKeeps(s: State, s': State, op: nat, r: Request, result: Result)
    requires Inv(s) && Running(s, op, r) && r.Add? && s.obj.None? && (result == Ok(true) || result == Error)
    requires s' == Effect(s, op, r, true, Some(Created(r.keys, s.clock + 1)), s.clock + 1, result)
    ensures Inv(s')
  {
    CreatedConsistent(r.keys, s.clock + 1);
    EffectKeeps(s, op, r, true, Some(Created(r.keys, s.clock + 1)), s.clock + 1, result);
  }

  lemma CreateKeeps(s: State, op: nat, r: Request, fate: Fate)
    requires Inv(s) && Running(s, op, r) && r.Add?
    ensures Inv(StepCreate(s, op, r, fate))
  {
    if fate.Lost? || s.obj.Some? {
      GotoKeeps(s, op, Finished(r, Error));
    } else {
      CreatedKeeps(s, StepCreate(s, op, r, fate), op, r, Reply(fate, true));
    }
  }

  lemma ReadKeysKeeps(s: State, op: nat, r: Request, gen: nat, fate: Fate)
    requires Inv(s) && Running(s, op, r) && gen <= s.clock
    ensures Inv(StepReadKeys(s, op, r, gen, fate))
  {
    if fate.Lost? || s.obj.None? || s.obj.value.ver != gen {
      GotoKeeps(s, op, Finished(r, if fate.Lost? || s.obj.None? then Crash else Error));
    } else {
      DecisionIsAtomic(s.obj.value, r, 0);
      match Decide(s.obj.value.count, Found(s.obj.value.omap, Keys(r)), r)
      case NoChange => EffectKeeps(s, op, r, false, s.obj, s.clock, Ok(false));
      case Refuse => GotoKeeps(s, op, Finished(r, Error));
      case Commit(w) => GotoKeeps(s, op, Deciding(r, gen, w));
    }
  }

  lemma WrittenKeeps(s: State, s': State, op: nat, r: Request, w: Write, result: Result)
    requires Inv(s) && Running(s, op, r) && s.obj.Some? && (result == Ok(w.Delete?) || result == Error)
    requires Decide(s.obj.value.count, Found(s.obj.value.omap, Keys(r)), r) == Commit(w)
    requires s' == Effect(s, op, r, w.Delete?, Perform(s.obj.value, w, s.clock + 1), s.clock + 1, result)
    ensures Inv(s')
  {
    DecisionIsAtomic(s.obj.value, r, s.clock + 1);
    EffectKeeps(s, op, r, w.Delete?, Perform(s.obj.value, w, s.clock + 1), s.clock + 1, result);
  }

  lemma WriteRefused(s: State, op: nat, r: Request, gen: nat, w: Write, fate: Fate)
    requires Inv(s) && Running(s, op, r)
    requires fate.Lost? || s.obj.None? || s.obj.value.ver != gen
    ensures Inv(StepWrite(s, op, r, gen, w, fate))
  {
  }

  /** A decision taken on a version stays right for as long as that version is stored. */
  lemma StillDecided(s: State, op: nat)
    requires GoodWriters(s) && op in s.writers && s.writers[op].Deciding?
    requires s.obj.Some? && s.obj.value.ver == s.writers[op].gen
    ensures var w := s.writers[op]; Decide(s.obj.value.count, Found(s.obj.value.omap, Keys(w.r)), w.r) == Commit(w.w)
  {
  }

  lemma WriteIsEffect(s: State, op: nat, r: Request, gen: nat, w: Write, fate: Fate)
    requires !fate.Lost? && s.obj.Some? && s.obj.value.ver == gen
    ensures StepWrite(s, op, r, gen, w, fate) ==
            Effect(s, op, r, w.Delete?, Perform(s.obj.value, w, s.clock + 1), s.clock + 1, Reply(fate, w.Delete?))
    ensures Reply(fate, w.Delete?) == Ok(w.Delete?) || Reply(fate, w.Delete?) == Error
  {
  }

  lemma WriteTaken(s: State, op: nat, r: Request, gen: nat, w: Write, fate: Fate)
    requires Inv(s) && Running(s, op, r) && s.writers[op] == Deciding(r, gen, w)
    requires !fate.Lost? && s.obj.Some? && s.obj.value.ver == gen
    ensures Inv(StepWrite(s, op, r, gen, w, fate))
  {
    StillDecided(s, op);
    WriteIsEffect(s, op, r, gen, w, fate);
    WrittenKeeps(s, StepWrite(s, op, r, gen, w, fate), op, r, w, Reply(fate, w.Delete?));
  }

  lemma InvStep(s: State, e: Event)
    requires Inv(s) && Enabled(s, e)
    ensures Inv(Step(s, e))
  {
    match e
    case Start(op, r) => GotoKeeps(s, op, if Keys(r) == {} then Finished(r, Error) else Started(r));
    case ReadVersion(op, fate) => ReadVersionKeeps(s, op, s.writers[op].r, fate);
    case CreateObject(op, fate) => CreateKeeps(s, op, s.writers[op].r, fate);
    case ReadKeys(op, fate) => ReadKeysKeeps(s, op, s.writers[op].r, s.writers[op].gen, fate);
    case WriteObject(op, fate) =>
      var Deciding(r, gen, w) := s.writers[op];
      if fate.Lost? || s.obj.None? || s.obj.value.ver != gen {
        WriteRefused(s, op, r, gen, w, fate);
      } else {
        WriteTaken(s, op, r, gen, w, fate);
      }
  }

  lemma {:induction false} StateInv(states: seq<State>, events: seq<Event>, i: nat)
    requires IsRun(states, events) && i < |states|
    ensures Inv(states[i])
  {
    if i > 0 {
      StateInv(states, events, i - 1);
      InvStep(states[i - 1], events[i - 1]);
    }
  }

  lemma RunInv(states: seq<State>, events: seq<Event>)
    requires IsRun(states, events)
    ensures forall s :: s in states ==> Inv(s)
  {
    forall i | 0 <= i < |states|
      ensures Inv(states[i])
    {
      StateInv(states, events, i);
    }
  }

  /** Repeating a request, as a caller must after a lost answer, changes nothing. */
  lemma Idempotent(a: Option<Refs>, r: Request)
    ensures Atomic(Atomic(a, r).0, r).0 == Atomic(a, r).0
  {
    match r
    case Add(keys) =>
      var m := Atomic(a, r).0.value;
      assert keys - m.Keys == {};
      assert Added(m, keys) == m;
    case Remove(refs) =>
      if a.Some? {
        assert Removed(Removed(a.value, refs), refs) == Removed(a.value, refs);
      }
  }

  /** The refcount written for a new object is right exactly for requests of fewer than 2^32 keys. */
  lemma CreatedCount(keys: set<string>, ver: nat)
    ensures Created(keys, ver).count == |NormalKeys(Created(keys, ver).omap)| <==> |keys| < 0x1_0000_0000
  {
    assert NormalKeys(AllNormal(keys)) == keys;
  }

  // ---------------------------------------------------------------- operations that run alone

  /** All the steps of one operation, with nobody in between. */
  function Alone(s: State, op: nat, r: Request): State {
    if s.obj.Some? then
      AloneOn(s, op, r, s.obj.value, Decide(s.obj.value.count, Found(s.obj.value.omap, Keys(r)), r))
    else if r.Add? then StepCreate(StepReadVersion(s, op, r, Served), op, r, Served)
    else StepReadVersion(s, op, r, Served)
  }

  function AloneOn(s: State, op: nat, r: Request, o: Object, d: Decision): State {
    var s' := Act(StepReadVersion(s, op, r, Served), op, r, o.ver, d);
    if d.Commit? then StepWrite(s', op, r, o.ver, d.w, Served) else s'
  }

  /** The one case in which an operation is refused: one Normal key too many for the refcount. */
  ghost predicate Overflows(s: State, r: Request) {
    r.Add? && s.obj.Some? && |NormalKeys(Added(s.obj.value.omap, r.keys))| >= LIMIT
  }

  lemma AloneOnObject(s: State, op: nat, r: Request, o: Object, d: Decision)
    requires s.obj == Some(o)
    ensures AloneOn(s, op, r, o, d) ==
            match d
            case NoChange => Effect(s, op, r, false, s.obj, s.clock, Ok(false))
            case Refuse => Done(s, op, r, Error)
            case Commit(w) => Effect(s, op, r, w.Delete?, Perform(o, w, s.clock + 1), s.clock + 1, Ok(w.Delete?))
  {
  }

  /** An undisturbed operation does what the atomic tracker does, except that it refuses to overflow. */
  lemma AloneIsAtomic(s: State, op: nat, r: Request)
    requires GoodObject(s) && 0 < |Keys(r)| < LIMIT
    ensures Overflows(s, r) ==> Alone(s, op, r) == Done(s, op, r, Error)
    ensures !Overflows(s, r) ==>
              var s', a := Alone(s, op, r), Atomic(Contents(s.obj), r);
              op in s'.writers && s'.writers[op] == Finished(r, Ok(a.1)) && Contents(s'.obj) == a.0
  {
    if s.obj.Some? {
      var d := Decide(s.obj.value.count, Found(s.obj.value.omap, Keys(r)), r);
      AloneOnObject(s, op, r, s.obj.value, d);
      DecisionIsAtomic(s.obj.value, r, s.clock + 1);
      if r.Add? {
        AddDecision(s.obj.value, r.keys, s.clock + 1);
      } else {
        RemoveDecision(s.obj.value, r.refs, s.clock + 1);
      }
    }
  }
}
