/**
  The journal that makes volume and snapshot creation idempotent (internal/journal/voljournal.go).

  Two kinds of RADOS omaps link a request name to a volume: the directory in the journal pool maps the
  name to a UUID, and the object of the UUID maps back to the name.  With topology-constrained pools the
  image lives in another pool, which the directory may or may not say.  Reserving, checking and undoing
  a reservation are sequences of single omap operations, serialised per request name by a lock and
  interleaved freely between names; the process may die between any two of them.
*/
module Journal {
  import opened Options

  /** The CSI interface refuses requests without a name. */
  type Name = name: string | name != "" witness "pvc"

  type Uuid = string

  /** The pools of a request, and whether the ID of the image pool is known. */
  datatype Pools = Pools(journal: string, image: string, imageIdKnown: bool) {
    /** The directory will name another pool. */
    predicate Split() {
      journal != image && imageIdKnown
    }
  }

  /** A directory key and an object of a UUID, each in its pool. */
  datatype Key = Key(pool: string, name: Name)
  datatype Oid = Oid(pool: string, uuid: Uuid)

  /** A directory value: the UUID alone, or with the pool that holds the image. */
  datatype Pointer = Bare(uuid: Uuid) | InPool(uuid: Uuid, pool: string) {
    /** Where CheckReservation looks, having read the value in the given journal pool. */
    function Target(journal: string): Oid {
      Oid(if Bare? then journal else pool, uuid)
    }
  }

  /** What CheckReservation answers. */
  datatype Answer = Unreserved | Found(uuid: Uuid) | Inconsistent | Failed

  /** An operation that holds the lock of its request name. */
  datatype Op =
    | Reserve(p: Pools)                // ReserveName: about to create the UUID object
    | Created(p: Pools, uuid: Uuid)    // ... about to write the directory key
    | Linked(p: Pools, uuid: Uuid)     // ... about to write the back pointer
    | Check(journal: string, snapshot: bool)                     // CheckReservation: about to read the directory
    | Reading(journal: string, snapshot: bool, pointer: Pointer) // ... about to read the UUID object
    | Removing(directory: string, oid: Oid, checking: bool)   // UndoReservation: about to remove the UUID object
    | Unlinking(directory: string, checking: bool)               // ... about to remove the directory key
    | Reserved(uuid: Uuid)             // ReserveName succeeded
    | Answered(a: Answer)              // CheckReservation returned
    | Stopped                          // returned an error, or UndoReservation returned

  datatype State = State(
    directory: map<Key, Pointer>,
    objects: map<Oid, Option<Name>>,   // the back pointer, once written
    ops: map<Name, Op>,                // operations in flight
    owner: map<Uuid, Name>             // history: the request each UUID was generated for
  )

  /** How an omap operation ends: done, refused, or done but reported as failed. */
  datatype Fate = Done | Refused | DoneUnseen

  datatype Event =
    | Begin(name: Name, op: Op)
    | Create(name: Name, uuid: Uuid, fate: Fate)
    | Link(name: Name, fate: Fate)
    | Fill(name: Name, fate: Fate)
    | ReadDirectory(name: Name, fate: Fate)
    | ReadObject(name: Name, fate: Fate)
    | Remove(name: Name, fate: Fate)
    | Unlink(name: Name, fate: Fate)
    | End(name: Name)                  // the operation has returned, or the process has died

  function Init(): State {
    State(map[], map[], map[], map[])
  }

  /** The entry points; a reservation is undone for the volume that the name is linked to. */
  predicate Starts(s: State, name: Name, op: Op) {
    || op.Reserve?
    || op.Check?
    || (op.Removing? && !op.checking && Key(op.directory, name) in s.directory &&
        s.directory[Key(op.directory, name)].uuid == op.oid.uuid)
  }

  predicate Enabled(s: State, e: Event) {
    if e.Begin? then e.name !in s.ops && Starts(s, e.name, e.op)
    else
      && e.name in s.ops
      && var op := s.ops[e.name];
         match e
         case Create(_, uuid, _) => op.Reserve? && uuid !in s.owner
         case Link(_, _) => op.Created?
         case Fill(_, _) => op.Linked?
         case ReadDirectory(_, fate) => op.Check? && !fate.DoneUnseen?
         case ReadObject(_, fate) => op.Reading? && !fate.DoneUnseen?
         case Remove(_, _) => op.Removing?
         case Unlink(_, _) => op.Unlinking?
         case End(_) => true
  }

  function Goto(s: State, name: Name, op: Op): State {
    s.(ops := s.ops[name := op])
  }

  /** Where an undone reservation, or one that could not be undone, leaves its caller. */
  function AfterUndo(checking: bool, a: Answer): Op {
    if checking then Answered(a) else Stopped
  }

  function PointerFor(p: Pools, uuid: Uuid): Pointer {
    if p.Split() then InPool(uuid, p.image) else Bare(uuid)
  }

  // What the writing operations do to the store when they take effect: the UUID object goes to the image
  // pool, the directory key to the journal pool, and the back pointer to the journal pool as well.

  function WithObject(s: State, p: Pools, name: Name, uuid: Uuid): State {
    s.(objects := s.objects[Oid(p.image, uuid) := None], owner := s.owner[uuid := name])
  }

  function WithKey(s: State, p: Pools, name: Name, uuid: Uuid): State {
    s.(directory := s.directory[Key(p.journal, name) := PointerFor(p, uuid)])
  }

  function WithBackPointer(s: State, p: Pools, name: Name, uuid: Uuid): State {
    s.(objects := s.objects[Oid(p.journal, uuid) := Some(name)])
  }

  /** The deferred undo of ReserveName is given the pools in the other order. */
  function GiveUp(p: Pools, uuid: Uuid): Op {
    Removing(p.image, Oid(p.journal, uuid), false)
  }

  function Step(s: State, e: Event): State
    requires Enabled(s, e)
  {
    match e
    case Begin(name, op) => Goto(s, name, op)
    case Create(name, uuid, fate) =>
      var p := s.ops[name].p;
      Goto(if fate.Refused? then s else WithObject(s, p, name, uuid), name,
           if fate.Done? then Created(p, uuid) else Stopped)
    case Link(name, fate) =>
      var Created(p, uuid) := s.ops[name];
      Goto(if fate.Refused? then s else WithKey(s, p, name, uuid), name,
           if fate.Done? then Linked(p, uuid) else Stopped)
    case Fill(name, fate) =>
      var Linked(p, uuid) := s.ops[name];
      Goto(if fate.Refused? then s else WithBackPointer(s, p, name, uuid), name,
           if fate.Done? then Reserved(uuid) else GiveUp(p, uuid))
    case ReadDirectory(name, fate) =>
      var Check(journal, snapshot) := s.ops[name];
      Goto(s, name, if fate.Refused? then Answered(Failed) else Looked(s, name, journal, snapshot))
    case ReadObject(name, fate) =>
      var Reading(journal, snapshot, pointer) := s.ops[name];
      Goto(s, name, if fate.Refused? then Answered(Failed) else Judge(s, name, journal, snapshot, pointer))
    case Remove(name, fate) =>
      var Removing(directory, oid, checking) := s.ops[name];
      Goto(if fate.Refused? then s else s.(objects := s.objects - {oid}), name,
           if fate.Done? then Unlinking(directory, checking) else AfterUndo(checking, Failed))
    case Unlink(name, fate) =>
      var Unlinking(directory, checking) := s.ops[name];
      Goto(if fate.Refused? then s else s.(directory := s.directory - {Key(directory, name)}), name,
           AfterUndo(checking, if fate.Done? then Unreserved else Failed))
    case End(name) => s.(ops := s.ops - {name})
  }

  function Looked(s: State, name: Name, journal: string, snapshot: bool): Op {
    var key := Key(journal, name);
    if key in s.directory then Reading(journal, snapshot, s.directory[key]) else Answered(Unreserved)
  }

  /**
    What CheckReservation concludes from the UUID object.  A missing object is cleaned up, and so is a
    snapshot's object without its source; a volume's object without a back pointer is not.
  */
  function Judge(s: State, name: Name, journal: string, snapshot: bool, pointer: Pointer): Op {
    var oid := pointer.Target(journal);
    if oid !in s.objects then Removing(journal, oid, true)
    else if s.objects[oid] == None then if snapshot then Removing(journal, oid, true) else Answered(Inconsistent)
    else if s.objects[oid].value == name then Answered(Found(pointer.uuid))
    else Answered(Inconsistent)
  }

  ghost predicate IsRun(states: seq<State>, events: seq<Event>) {
    && |states| == |events| + 1
    && states[0] == Init()
    && forall i :: 0 <= i < |events| ==> Enabled(states[i], events[i]) && states[i + 1] == Step(states[i], events[i])
  }

  /** Some steps of the protocol lead from s to s'. */
  ghost predicate Leads(s: State, events: seq<Event>, states: seq<State>, s': State) {
    && |states| == |events| + 1 && states[0] == s && states[|events|] == s'
    && forall i :: 0 <= i < |events| ==> Enabled(states[i], events[i]) && states[i + 1] == Step(states[i], events[i])
  }

  /** No other operation is begun. */
  ghost predicate OnlyBegins(events: seq<Event>, op: Op) {
    forall i :: 0 <= i < |events| && events[i].Begin? ==> events[i].op == op
  }

  lemma LeadsOn(s: State, events: seq<Event>, states: seq<State>, s': State, e: Event)
    requires Leads(s, events, states, s') && Enabled(s', e)
    ensures Leads(s, events + [e], states + [Step(s', e)], Step(s', e))
  {
  }

  lemma Overwrite(m: map<Name, Op>, name: Name, x: Op, y: Op)
    ensures m[name := x][name := y] == m[name := y]
  {
  }

  // ---------------------------------------------------------------- invariant

  ghost predicate Owns(s: State, name: Name, uuid: Uuid) {
    uuid in s.owner && s.owner[uuid] == name
  }

  ghost predicate OpSafe(s: State, name: Name, op: Op) {
    match op
    case Created(_, uuid) => Owns(s, name, uuid)
    case Linked(_, uuid) => Owns(s, name, uuid)
    case Reading(_, _, pointer) => Owns(s, name, pointer.uuid)
    case Removing(_, oid, _) => Owns(s, name, oid.uuid)
    case Reserved(uuid) => Owns(s, name, uuid)
    case Answered(a) => a.Found? ==> Owns(s, name, a.uuid)
    case _ => true
  }

  ghost predicate StoreSafe(s: State) {
    && (forall k :: k in s.directory ==> Owns(s, k.name, s.directory[k].uuid))
    && (forall o :: o in s.objects ==>
          o.uuid in s.owner && (s.objects[o].Some? ==> s.objects[o].value == s.owner[o.uuid]))
  }

  ghost predicate OpsSafe(s: State) {
    forall n :: n in s.ops ==> OpSafe(s, n, s.ops[n])
  }

  /** Every pointer, in the store and in the hands of an operation, stays with the request the UUID was made for. */
  ghost predicate Inv(s: State) {
    StoreSafe(s) && OpsSafe(s)
  }

  lemma GotoKeeps(s: State, name: Name, op: Op)
    requires Inv(s) && OpSafe(s, name, op)
    ensures Inv(Goto(s, name, op))
  {
  }

  lemma CreateKeeps(s: State, p: Pools, name: Name, uuid: Uuid)
    requires Inv(s) && uuid !in s.owner
    ensures Inv(WithObject(s, p, name, uuid))
  {
  }

  lemma WriteKeeps(s: State, p: Pools, name: Name, uuid: Uuid)
    requires Inv(s) && Owns(s, name, uuid)
    ensures Inv(WithKey(s, p, name, uuid)) && Inv(WithBackPointer(s, p, name, uuid))
  {
  }

  lemma ReserveKeeps(s: State, e: Event)
    requires Inv(s) && Enabled(s, e) && (e.Create? || e.Link? || e.Fill?)
    ensures Inv(Step(s, e))
  {
    var name, op := e.name, Step(s, e).ops[e.name];
    if e.fate.Refused? {
      GotoKeeps(s, name, op);
    } else if e.Create? {
      CreateKeeps(s, s.ops[name].p, name, e.uuid);
      GotoKeeps(WithObject(s, s.ops[name].p, name, e.uuid), name, op);
    } else {
      var p, uuid := s.ops[name].p, s.ops[name].uuid;
      WriteKeeps(s, p, name, uuid);
      GotoKeeps(if e.Link? then WithKey(s, p, name, uuid) else WithBackPointer(s, p, name, uuid), name, op);
    }
  }

  lemma CheckKeeps(s: State, e: Event)
    requires Inv(s) && Enabled(s, e) && (e.Begin? || e.ReadDirectory? || e.ReadObject?)
    ensures Inv(Step(s, e))
  {
    GotoKeeps(s, e.name, Step(s, e).ops[e.name]);
  }

  lemma UndoKeeps(s: State, e: Event)
    requires Inv(s) && Enabled(s, e) && (e.Remove? || e.Unlink? || e.End?)
    ensures Inv(Step(s, e))
  {
  }

  lemma InvStep(s: State, e: Event)
    requires Inv(s) && Enabled(s, e)
    ensures Inv(Step(s, e))
  {
    if e.Create? || e.Link? || e.Fill? {
      ReserveKeeps(s, e);
    } else if e.Remove? || e.Unlink? || e.End? {
      UndoKeeps(s, e);
    } else {
      CheckKeeps(s, e);
    }
  }

  lemma {:induction false} StateInv(states: seq<State>, events: seq<Event>, i: nat)
    requires IsRun(states, events) && i < |states|
    ensures Inv(states[i])
  {
    if i > 0 {
      StateInv(states, events, i - 1);
      InvStep(states[i - 1], events[i - 1]);
    }
  }

  lemma RunInv(states: seq<State>, events: seq<Event>)
    requires IsRun(states, events)
    ensures forall s :: s in states ==> Inv(s)
  {
    forall i | 0 <= i < |states|
      ensures Inv(states[i])
    {
      StateInv(states, events, i);
    }
  }

  // ---------------------------------------------------------------- theorems over every run

  /** The operation on a name has ended with this volume. */
  ghost predicate Has(s: State, name: Name, uuid: Uuid) {
    name in s.ops && (s.ops[name] == Reserved(uuid) || s.ops[name] == Answered(Found(uuid)))
  }

  lemma {:induction false} OwnerStays(states: seq<State>, events: seq<Event>, i: int, j: int, name: Name, uuid: Uuid)
    requires IsRun(states, events) && 0 <= i <= j < |states| && Owns(states[i], name, uuid)
    ensures Owns(states[j], name, uuid)
    decreases j - i
  {
    if i < j {
      OwnerStays(states, events, i, j - 1, name, uuid);
    }
  }

  /** Whatever pools the requests use, at no moment are two of them linked to the same volume. */
  lemma NeverLinkedTwice(states: seq<State>, events: seq<Event>, s: State, j: Key, k: Key)
    requires IsRun(states, events) && s in states
    requires j in s.directory && k in s.directory && s.directory[j].uuid == s.directory[k].uuid
    ensures j.name == k.name
  {
    RunInv(states, events);
  }

  /** Whoever reserves or finds a volume at any moment of a run, it is the same request. */
  lemma NeverShared(states: seq<State>, events: seq<Event>, i: int, j: int, a: Name, b: Name, uuid: Uuid)
    requires IsRun(states, events) && 0 <= i < |states| && 0 <= j < |states|
    requires Has(states[i], a, uuid) && Has(states[j], b, uuid)
    ensures a == b
  {
    StateInv(states, events, i);
    StateInv(states, events, j);
    if i <= j {
      OwnerStays(states, events, i, j, a, uuid);
    } else {
      OwnerStays(states, events, j, i, b, uuid);
    }
  }

  ghost predicate Pointing(s: State, key: Key, back: Option<Name>) {
    && key in s.directory
    && var oid := s.directory[key].Target(key.pool); oid in s.objects && s.objects[oid] == back
  }

  /** The key leads to an object that points back. */
  ghost predicate Complete(s: State, key: Key) {
    Pointing(s, key, Some(key.name))
  }

  /** The key leads to an object that does not point back yet. */
  ghost predicate HalfMade(s: State, key: Key) {
    Pointing(s, key, None)
  }

  /** What an undisturbed CheckReservation with every omap operation done answers and leaves behind. */
  function Checked(s: State, key: Key, snapshot: bool): (State, Answer) {
    if key !in s.directory then (s, Unreserved)
    else
      match Judge(s, key.name, key.pool, snapshot, s.directory[key])
      case Answered(a) => (s, a)
      case _ =>
        (s.(objects := s.objects - {s.directory[key].Target(key.pool)}, directory := s.directory - {key}), Unreserved)
  }

  lemma ReadsLead(s: State, key: Key, snapshot: bool) returns (events: seq<Event>, states: seq<State>)
    requires key.name !in s.ops
    ensures Leads(s, events, states, Goto(s, key.name, if key !in s.directory then Answered(Unreserved)
                                                       else Judge(s, key.name, key.pool, snapshot, s.directory[key])))
  {
    var Key(journal, name) := key;
    var check, looked := Check(journal, snapshot), Looked(s, name, journal, snapshot);
    events, states := [Begin(name, check)], [s, Goto(s, name, check)];
    LeadsOn(s, events, states, Goto(s, name, check), ReadDirectory(name, Done));
    Overwrite(s.ops, name, check, looked);
    events, states := events + [ReadDirectory(name, Done)], states + [Goto(s, name, looked)];
    if key in s.directory {
      LeadsOn(s, events, states, Goto(s, name, looked), ReadObject(name, Done));
      var op := Judge(s, name, journal, snapshot, s.directory[key]);
      Overwrite(s.ops, name, looked, op);
      events, states := events + [ReadObject(name, Done)], states + [Goto(s, name, op)];
    }
  }

  /** An undo that has begun and meets no failure removes the object and then the key. */
  lemma UndoLeads(s: State, name: Name, directory: string, oid: Oid, checking: bool)
    ensures var start := Goto(s, name, Removing(directory, oid, checking));
            var gone := s.(objects := s.objects - {oid});
            var s' := gone.(directory := s.directory - {Key(directory, name)});
            && Enabled(start, Remove(name, Done))
            && Step(start, Remove(name, Done)) == Goto(gone, name, Unlinking(directory, checking))
            && Enabled(Step(start, Remove(name, Done)), Unlink(name, Done))
            && Step(Step(start, Remove(name, Done)), Unlink(name, Done)) ==
               Goto(s', name, AfterUndo(checking, Unreserved))
  {
    Overwrite(s.ops, name, Removing(directory, oid, checking), Unlinking(directory, checking));
    Overwrite(s.ops, name, Unlinking(directory, checking), AfterUndo(checking, Unreserved));
  }

  lemma LeadsToUndone(s: State, events: seq<Event>, states: seq<State>, s1: State, name: Name,
                      directory: string, oid: Oid, checking: bool)
    returns (events': seq<Event>, states': seq<State>)
    requires Leads(s, events, states, Goto(s1, name, Removing(directory, oid, checking)))
    ensures var s' := s1.(objects := s1.objects - {oid}, directory := s1.directory - {Key(directory, name)});
            Leads(s, events', states', Goto(s', name, AfterUndo(checking, Unreserved)))
    ensures forall op :: OnlyBegins(events, op) ==> OnlyBegins(events', op)
  {
    var start := Goto(s1, name, Removing(directory, oid, checking));
    UndoLeads(s1, name, directory, oid, checking);
    LeadsOn(s, events, states, start, Remove(name, Done));
    var middle := Step(start, Remove(name, Done));
    events', states' := events + [Remove(name, Done)], states + [middle];
    LeadsOn(s, events', states', middle, Unlink(name, Done));
    events', states' := events' + [Unlink(name, Done)], states' + [Step(middle, Unlink(name, Done))];
  }

  /** That is where the steps of the protocol lead. */
  lemma CheckedIsReached(s: State, key: Key, snapshot: bool) returns (events: seq<Event>, states: seq<State>)
    requires key.name !in s.ops
    ensures var checked := Checked(s, key, snapshot);
            Leads(s, events, states, Goto(checked.0, key.name, Answered(checked.1)))
  {
    events, states := ReadsLead(s, key, snapshot);
    if key in s.directory && Judge(s, key.name, key.pool, snapshot, s.directory[key]).Removing? {
      events, states :=
        LeadsToUndone(s, events, states, s, key.name, key.pool, s.directory[key].Target(key.pool), true);
    }
  }

  /** A check finds a complete reservation, refuses a half-made volume as it is, and frees any other name. */
  ghost predicate Told(s: State, key: Key, snapshot: bool) {
    var checked := Checked(s, key, snapshot);
    if Complete(s, key) then checked == (s, Found(s.directory[key].uuid))
    else if HalfMade(s, key) && !snapshot then checked == (s, Inconsistent)
    else checked.1 == Unreserved && key !in checked.0.directory
  }

  lemma Tells(s: State, key: Key, snapshot: bool)
    requires Inv(s)
    ensures Told(s, key, snapshot)
  {
  }

  /** In every reachable state the answer tells exactly which of these situations the name is in. */
  lemma CheckTells(states: seq<State>, events: seq<Event>, s: State, key: Key, snapshot: bool)
    requires IsRun(states, events) && s in states
    ensures Told(s, key, snapshot)
  {
    RunInv(states, events);
    Tells(s, key, snapshot);
  }

  /** Steps of other requests never disturb what a name is linked to. */
  lemma OthersDoNotDisturb(s: State, e: Event, key: Key, back: Option<Name>)
    requires Inv(s) && Enabled(s, e) && e.name != key.name && key in s.directory
    ensures var s' := Step(s, e);
            && key in s'.directory && s'.directory[key] == s.directory[key]
            && (Pointing(s, key, back) ==> Pointing(s', key, back))
  {
    OtherObjects(s, e, s.directory[key].Target(key.pool), key.name);
  }

  lemma OtherObjects(s: State, e: Event, oid: Oid, name: Name)
    requires Inv(s) && Enabled(s, e) && e.name != name && Owns(s, name, oid.uuid)
    ensures var s' := Step(s, e);
            oid in s.objects ==> oid in s'.objects && s'.objects[oid] == s.objects[oid]
  {
  }

  // ---------------------------------------------------------------- repeating a request

  /** The name's own operation, if there is one, has ended or is a check that has read what is there now. */
  ghost predicate OnlyChecks(s: State, key: Key) {
    key.name in s.ops && key in s.directory ==>
      match s.ops[key.name]
      case Reserved(_) => true
      case Stopped => true
      case Answered(_) => true
      case Check(journal, _) => journal == key.pool
      case Reading(journal, _, pointer) => journal == key.pool && pointer == s.directory[key]
      case _ => false
  }

  /** The step does not begin another operation on the name than a check. */
  ghost predicate Repeats(e: Event, key: Key) {
    e.name == key.name && e.Begin? ==> e.op.Check? && e.op.journal == key.pool
  }

  /** One step, of the name's own check or of another request: the reservation stays, and the check finds it. */
  lemma RepeatStep(s: State, e: Event, key: Key)
    requires Inv(s) && Enabled(s, e) && Complete(s, key) && OnlyChecks(s, key) && Repeats(e, key)
    ensures var s' := Step(s, e);
            && Complete(s', key) && OnlyChecks(s', key) && s'.directory[key] == s.directory[key]
            && (e == ReadObject(key.name, Done) ==> s'.ops[key.name] == Answered(Found(s.directory[key].uuid)))
  {
    if e.name != key.name {
      OthersDoNotDisturb(s, e, key, Some(key.name));
    }
  }

  lemma {:induction false} UndisturbedLasts(states: seq<State>, events: seq<Event>, i: int, j: int, key: Key)
    requires IsRun(states, events) && 0 <= i <= j < |states| && Complete(states[i], key)
    requires forall k :: i <= k < j ==> events[k].name != key.name
    ensures Complete(states[j], key) && states[j].directory[key] == states[i].directory[key]
    decreases j - i
  {
    if i < j {
      StateInv(states, events, j - 1);
      UndisturbedLasts(states, events, i, j - 1, key);
      OthersDoNotDisturb(states[j - 1], events[j - 1], key, Some(key.name));
    }
  }

  lemma {:induction false} RepeatsLast(states: seq<State>, events: seq<Event>, i: int, j: int, key: Key)
    requires IsRun(states, events) && 0 <= i <= j < |states| && Complete(states[i], key) && OnlyChecks(states[i], key)
    requires forall k :: i <= k < j ==> Repeats(events[k], key)
    ensures Complete(states[j], key) && OnlyChecks(states[j], key)
    ensures states[j].directory[key] == states[i].directory[key]
    decreases j - i
  {
    if i < j {
      StateInv(states, events, j - 1);
      RepeatsLast(states, events, i, j - 1, key);
      RepeatStep(states[j - 1], events[j - 1], key);
    }
  }

  /**
    Once complete, a reservation lasts through any run of other requests, whatever they do and wherever
    they die, and of repeated checks of its own name; and each of these that gets to read the object
    answers with the same volume.
  */
  lemma ReservationLasts(states: seq<State>, events: seq<Event>, i: int, j: int, key: Key)
    requires IsRun(states, events) && 0 <= i <= j < |states| && Complete(states[i], key)
    requires || (forall k :: i <= k < j ==> events[k].name != key.name)
             || (OnlyChecks(states[i], key) && forall k :: i <= k < j ==> Repeats(events[k], key))
    ensures Complete(states[j], key) && states[j].directory[key] == states[i].directory[key]
    ensures forall k :: i <= k < j && events[k] == ReadObject(key.name, Done) ==>
              states[k + 1].ops[key.name] == Answered(Found(states[i].directory[key].uuid))
  {
    if forall k :: i <= k < j ==> events[k].name != key.name {
      UndisturbedLasts(states, events, i, j, key);
    } else {
      RepeatsLast(states, events, i, j, key);
      forall k | i <= k < j && events[k] == ReadObject(key.name, Done)
        ensures states[k + 1].ops[key.name] == Answered(Found(states[i].directory[key].uuid))
      {
        StateInv(states, events, k);
        RepeatsLast(states, events, i, k, key);
        RepeatStep(states[k], events[k], key);
      }
    }
  }

  /** An operation about to write its back pointer still has its directory key. */
  ghost predicate Held(s: State, name: Name) {
    name in s.ops && s.ops[name].Linked? ==>
      var Linked(p, uuid) := s.ops[name];
      Key(p.journal, name) in s.directory && s.directory[Key(p.journal, name)] == PointerFor(p, uuid)
  }

  lemma HeldStep(s: State, e: Event, name: Name)
    requires Enabled(s, e) && Held(s, name)
    ensures Held(Step(s, e), name)
  {
  }

  lemma {:induction false} AlwaysHeld(states: seq<State>, events: seq<Event>, i: nat, name: Name)
    requires IsRun(states, events) && i < |states|
    ensures Held(states[i], name)
  {
    if i > 0 {
      AlwaysHeld(states, events, i - 1, name);
      HeldStep(states[i - 1], events[i - 1], name);
    }
  }

  /** A ReserveName that succeeds, without naming another pool, leaves a complete reservation. */
  lemma SuccessIsComplete(states: seq<State>, events: seq<Event>, i: nat, name: Name)
    requires IsRun(states, events) && i < |events| && events[i] == Fill(name, Done)
    requires var p := states[i].ops[name].p; p.journal == p.image || !p.imageIdKnown
    ensures var Linked(p, uuid) := states[i].ops[name];
            var key := Key(p.journal, name);
            && states[i + 1].ops[name] == Reserved(uuid) && OnlyChecks(states[i + 1], key)
            && Complete(states[i + 1], key) && states[i + 1].directory[key].uuid == uuid
  {
    AlwaysHeld(states, events, i, name);
  }

  /**
    The journal's purpose: once ReserveName has succeeded, every repetition of the request that gets to
    read the object is told the volume that was reserved, in every run in which the name is not
    reserved again or given back.
  */
  lemma SameRequestSameVolume(states: seq<State>, events: seq<Event>, i: nat, k: nat, name: Name)
    requires IsRun(states, events) && i < k < |events| && events[i] == Fill(name, Done)
    requires var p := states[i].ops[name].p; p.journal == p.image || !p.imageIdKnown
    requires forall m :: i < m <= k ==> Repeats(events[m], Key(states[i].ops[name].p.journal, name))
    requires events[k] == ReadObject(name, Done)
    ensures states[k + 1].ops[name] == Answered(Found(states[i].ops[name].uuid))
  {
    SuccessIsComplete(states, events, i, name);
    ReservationLasts(states, events, i + 1, k + 1, Key(states[i].ops[name].p.journal, name));
  }

  // ---------------------------------------------------------------- what every answer means

  /** The pool and kind of the check that was begun last on a name, in the first i events. */
  ghost function Asked(events: seq<Event>, i: nat, name: Name): Option<(string, bool)>
    requires i <= |events|
  {
    if i == 0 then None
    else
      var e := events[i - 1];
      if e.Begin? && e.name == name && e.op.Check? then Some((e.op.journal, e.op.snapshot))
      else if e.Begin? && e.name == name then None
      else Asked(events, i - 1, name)
  }

  /** A check under way is the one that was begun, and what it has read is still there. */
  ghost predicate Checking(s: State, name: Name, asked: Option<(string, bool)>) {
    name in s.ops ==>
      match s.ops[name]
      case Check(journal, snapshot) => asked == Some((journal, snapshot))
      case Reading(journal, snapshot, pointer) =>
        && asked == Some((journal, snapshot))
        && Key(journal, name) in s.directory && s.directory[Key(journal, name)] == pointer
      case Removing(directory, _, true) => asked.Some? && asked.value.0 == directory
      case Unlinking(directory, true) => asked.Some? && asked.value.0 == directory
      case _ => true
  }

  lemma CheckingStep(s: State, e: Event, name: Name, asked: Option<(string, bool)>)
    requires Enabled(s, e) && Checking(s, name, asked)
    ensures e.name != name || !e.Begin? ==> Checking(Step(s, e), name, asked)
    ensures e.name == name && e.Begin? ==>
              Checking(Step(s, e), name, if e.op.Check? then Some((e.op.journal, e.op.snapshot)) else None)
  {
  }

  lemma {:induction false} AlwaysChecking(states: seq<State>, events: seq<Event>, i: nat, name: Name)
    requires IsRun(states, events) && i < |states|
    ensures Checking(states[i], name, Asked(events, i, name))
  {
    if i > 0 {
      AlwaysChecking(states, events, i - 1, name);
      CheckingStep(states[i - 1], events[i - 1], name, Asked(events, i - 1, name));
    }
  }

  /** The answer is true of the store, for the check that was asked for; no answer is given after a failed operation. */
  ghost predicate TrueOf(s: State, name: Name, journal: string, snapshot: bool, a: Answer) {
    var key := Key(journal, name);
    match a
    case Unreserved => key !in s.directory
    case Found(uuid) => Complete(s, key) && s.directory[key].uuid == uuid
    case Inconsistent => HalfMade(s, key) && !snapshot
    case Failed => true
  }

  lemma AnswerStep(s: State, e: Event, asked: Option<(string, bool)>)
    requires Inv(s) && Enabled(s, e) && !e.Begin? && !e.End? && Checking(s, e.name, asked)
    requires Step(s, e).ops[e.name].Answered?
    ensures asked.Some? && TrueOf(Step(s, e), e.name, asked.value.0, asked.value.1, Step(s, e).ops[e.name].a)
    ensures Step(s, e).ops[e.name].a == Failed <==> e.fate != Done
  {
  }

  /**
    In every run, whatever fails, is refused, is done unseen or is done meanwhile by others: a check that
    answers "unreserved" leaves no key of the name in its pool, one that finds a volume is right, and one
    that reports an inconsistency has met a half-made volume.  It reports a failure exactly when its last
    operation failed.
  */
  lemma AnswersAreTrue(states: seq<State>, events: seq<Event>, i: nat, name: Name, a: Answer)
    requires IsRun(states, events) && i < |events| && events[i].name == name && !events[i].Begin?
    requires name in states[i + 1].ops && states[i + 1].ops[name] == Answered(a)
    ensures Asked(events, i, name).Some?
    ensures var (journal, snapshot) := Asked(events, i, name).value; TrueOf(states[i + 1], name, journal, snapshot, a)
    ensures !events[i].End? && (a == Failed <==> events[i].fate != Done)
  {
    StateInv(states, events, i);
    AlwaysChecking(states, events, i, name);
    AnswerStep(states[i], events[i], Asked(events, i, name));
  }

  // ---------------------------------------------------------------- what a failed operation leaves

  /**
    ReserveName succeeds exactly with its last operation.  If it fails earlier it returns an error at
    once and undoes nothing, so that what it has written stays; only a failure of the last operation is
    followed by the undo.
  */
  lemma ReserveOutcome(states: seq<State>, events: seq<Event>, i: nat)
    requires IsRun(states, events) && i < |events| && (events[i].Create? || events[i].Link? || events[i].Fill?)
    ensures var e, s, s' := events[i], states[i], states[i + 1];
            && (s'.ops[e.name].Reserved? <==> e.Fill? && e.fate == Done)
            && (s'.ops[e.name] == Stopped <==> !e.Fill? && e.fate != Done)
            && (s'.ops[e.name].Removing? <==> e.Fill? && e.fate != Done)
            && (forall o :: o in s.objects ==> o in s'.objects) && (forall k :: k in s.directory ==> k in s'.directory)
            && (e.fate == Refused ==> s'.objects == s.objects && s'.directory == s.directory)
            && (e.Create? && e.fate != Refused ==> s'.objects == s.objects[Oid(s.ops[e.name].p.image, e.uuid) := None])
  {
  }

  /** An undo that meets a failure stops there: the directory key outlives the object, never the other way round. */
  lemma UndoOutcome(states: seq<State>, events: seq<Event>, i: nat)
    requires IsRun(states, events) && i < |events| && (events[i].Remove? || events[i].Unlink?)
    ensures var e, s, s' := events[i], states[i], states[i + 1];
            && (s'.ops[e.name].Unlinking? <==> e.Remove? && e.fate == Done)
            && (e.Remove? ==> s'.directory == s.directory)
            && (e.Remove? ==> s'.objects == if e.fate == Refused then s.objects else s.objects - {s.ops[e.name].oid})
            && (e.Unlink? ==> s'.objects == s.objects)
            && (e.Unlink? ==> s'.directory == if e.fate == Refused then s.directory
                                              else s.directory - {Key(s.ops[e.name].directory, e.name)})
  {
  }

  // ---------------------------------------------------------------- dying in the middle of ReserveName

  /** The store after ReserveName got through its first k omap operations and the process died. */
  function Died(s: State, p: Pools, name: Name, uuid: Uuid, k: nat): State {
    if k == 0 then s
    else if k == 1 then WithObject(s, p, name, uuid)
    else if k == 2 then WithKey(WithObject(s, p, name, uuid), p, name, uuid)
    else WithBackPointer(WithKey(WithObject(s, p, name, uuid), p, name, uuid), p, name, uuid)
  }

  /** The same before the process died. */
  function Alive(s: State, p: Pools, name: Name, uuid: Uuid, k: nat): State {
    Goto(Died(s, p, name, uuid, k), name,
         if k == 0 then Reserve(p)
         else if k == 1 then Created(p, uuid)
         else if k == 2 then Linked(p, uuid)
         else Reserved(uuid))
  }

  function Operation(name: Name, uuid: Uuid, k: nat): Event {
    if k == 0 then Create(name, uuid, Done) else if k == 1 then Link(name, Done) else Fill(name, Done)
  }

  lemma AliveStep(s: State, p: Pools, name: Name, uuid: Uuid, k: nat)
    requires uuid !in s.owner && k < 3
    ensures var a, e := Alive(s, p, name, uuid, k), Operation(name, uuid, k);
            Enabled(a, e) && Step(a, e) == Alive(s, p, name, uuid, k + 1)
  {
    Overwrite(s.ops, name, Alive(s, p, name, uuid, k).ops[name], Alive(s, p, name, uuid, k + 1).ops[name]);
  }

  /** ReserveName gets through its first k omap operations. */
  lemma AliveIsReached(s: State, p: Pools, name: Name, uuid: Uuid, k: nat)
    returns (events: seq<Event>, states: seq<State>)
    requires name !in s.ops && uuid !in s.owner && k <= 3
    ensures Leads(s, events, states, Alive(s, p, name, uuid, k)) && OnlyBegins(events, Reserve(p))
  {
    events, states := [Begin(name, Reserve(p))], [s, Alive(s, p, name, uuid, 0)];
    for i := 0 to k
      invariant Leads(s, events, states, Alive(s, p, name, uuid, i)) && OnlyBegins(events, Reserve(p))
    {
      AliveStep(s, p, name, uuid, i);
      LeadsOn(s, events, states, Alive(s, p, name, uuid, i), Operation(name, uuid, i));
      events, states := events + [Operation(name, uuid, i)], states + [Alive(s, p, name, uuid, i + 1)];
    }
  }

  lemma DiedIsReached(s: State, p: Pools, name: Name, uuid: Uuid, k: nat)
    returns (events: seq<Event>, states: seq<State>)
    requires name !in s.ops && uuid !in s.owner && k <= 3
    ensures Leads(s, events, states, Died(s, p, name, uuid, k))
  {
    events, states := AliveIsReached(s, p, name, uuid, k);
    var alive := Alive(s, p, name, uuid, k);
    assert alive.ops - {name} == s.ops;
    LeadsOn(s, events, states, alive, End(name));
    events, states := events + [End(name)], states + [Died(s, p, name, uuid, k)];
  }

  /** The key leads to the object in the image pool, and that has no back pointer. */
  predicate Dangling(p: Pools, k: nat) {
    if p.Split() then k >= 2 else k == 2 && p.journal == p.image
  }

  lemma DiedKeeps(s: State, p: Pools, name: Name, uuid: Uuid, k: nat)
    requires Inv(s) && uuid !in s.owner
    ensures Inv(Died(s, p, name, uuid, k))
  {
    var s1 := WithObject(s, p, name, uuid);
    CreateKeeps(s, p, name, uuid);
    WriteKeeps(s1, p, name, uuid);
    WriteKeeps(WithKey(s1, p, name, uuid), p, name, uuid);
  }

  lemma DiedPointing(s: State, p: Pools, name: Name, uuid: Uuid, k: nat)
    requires Inv(s) && Key(p.journal, name) !in s.directory && uuid !in s.owner && k <= 3
    ensures var died, key := Died(s, p, name, uuid, k), Key(p.journal, name);
            && (key in died.directory <==> k >= 2)
            && (key in died.directory ==> died.directory[key].uuid == uuid)
            && (Complete(died, key) <==> k == 3 && !p.Split())
            && (HalfMade(died, key) <==> Dangling(p, k))
  {
  }

  /**
    The next check recovers from a death at any point, and finds what was reserved, with one exception:
    a volume whose directory key leads to an object without a back pointer.  Such a name can be neither
    used nor reserved again.  In one pool that is a death between the last two operations; where the
    directory names another pool it is every reservation that got that far, the successful one included.
  */
  lemma RecoveryIff(s: State, p: Pools, name: Name, uuid: Uuid, k: nat, snapshot: bool)
    requires Inv(s) && Key(p.journal, name) !in s.directory && uuid !in s.owner && k <= 3
    ensures var died := Died(s, p, name, uuid, k);
            var checked := Checked(died, Key(p.journal, name), snapshot);
            var dangling := if p.journal == p.image then k == 2 else p.imageIdKnown && k >= 2;
            && (checked.1 == Found(uuid) <==> k == 3 && (p.journal == p.image || !p.imageIdKnown))
            && (checked.1 == Inconsistent && checked.0 == died <==> dangling && !snapshot)
            && (checked.1 == Unreserved && Key(p.journal, name) !in checked.0.directory <==>
                if dangling then snapshot else k <= 2)
  {
    DiedKeeps(s, p, name, uuid, k);
    DiedPointing(s, p, name, uuid, k);
    Tells(Died(s, p, name, uuid, k), Key(p.journal, name), snapshot);
  }

  // ---------------------------------------------------------------- giving up

  /** The store after the last operation of ReserveName was refused and the deferred undo met no failure. */
  function GivenUp(s: State, p: Pools, name: Name, uuid: Uuid): State {
    var s2 := Died(s, p, name, uuid, 2);
    s2.(objects := s2.objects - {Oid(p.journal, uuid)}, directory := s2.directory - {Key(p.image, name)})
  }

  lemma GivenUpIsReached(s: State, p: Pools, name: Name, uuid: Uuid) returns (events: seq<Event>, states: seq<State>)
    requires name !in s.ops && uuid !in s.owner
    ensures Leads(s, events, states, Goto(GivenUp(s, p, name, uuid), name, Stopped)) && OnlyBegins(events, Reserve(p))
  {
    events, states := AliveIsReached(s, p, name, uuid, 2);
    var alive, s2 := Alive(s, p, name, uuid, 2), Died(s, p, name, uuid, 2);
    LeadsOn(s, events, states, alive, Fill(name, Refused));
    Overwrite(s.ops, name, Linked(p, uuid), GiveUp(p, uuid));
    assert Step(alive, Fill(name, Refused)) == Goto(s2, name, GiveUp(p, uuid));
    events, states := events + [Fill(name, Refused)], states + [Goto(s2, name, GiveUp(p, uuid))];
    events, states := LeadsToUndone(s, events, states, s2, name, p.image, Oid(p.journal, uuid), false);
  }

  /**
    Giving up leaves no trace exactly when the two pools are the same and the name had no key.  With
    separate pools it removes neither the object nor the key it has written, and takes away the key that
    the name has in the directory of the image pool, if there is one.
  */
  lemma GivenUpIsUndoneIff(s: State, p: Pools, name: Name, uuid: Uuid)
    requires Inv(s) && uuid !in s.owner
    ensures var after, s2 := GivenUp(s, p, name, uuid), Died(s, p, name, uuid, 2);
            && (after.directory == s.directory && after.objects == s.objects <==>
                p.journal == p.image && Key(p.journal, name) !in s.directory)
            && (p.journal != p.image ==>
                  after.directory == s2.directory - {Key(p.image, name)} && after.objects == s2.objects)
            && (after == s2 <==> p.journal != p.image && Key(p.image, name) !in s.directory)
  {
    var after, s2 := GivenUp(s, p, name, uuid), Died(s, p, name, uuid, 2);
    assert Oid(p.image, uuid) !in s.objects && Oid(p.journal, uuid) !in s.objects;
    if p.journal == p.image {
      assert after.objects == s.objects;
      assert after.directory == s.directory - {Key(p.image, name)};
      assert Key(p.image, name) in s2.directory && Key(p.image, name) !in after.directory;
    } else {
      assert after.objects == s2.objects;
      assert Oid(p.image, uuid) in after.objects;
      assert Key(p.image, name) in s2.directory <==> Key(p.image, name) in s.directory;
    }
  }

  /** So a request that gives up can destroy the complete reservation of the same name in its image pool. */
  lemma GivingUpDestroys(s: State, p: Pools, name: Name, uuid: Uuid, snapshot: bool)
    requires Inv(s) && uuid !in s.owner && p.journal != p.image && Complete(s, Key(p.image, name))
    ensures var key, after := Key(p.image, name), GivenUp(s, p, name, uuid);
            && key !in after.directory && Checked(after, key, snapshot).1 == Unreserved
            && s.directory[key].Target(p.image) in after.objects
  {
    assert Oid(p.journal, uuid) !in s.objects;
  }

  lemma LeadsThrough(s: State, events: seq<Event>, states: seq<State>, s': State,
                     events': seq<Event>, states': seq<State>, s'': State)
    requires Leads(s, events, states, s') && Leads(s', events', states', s'')
    ensures Leads(s, events + events', states + states'[1..], s'')
  {
    var all, states2 := events + events', states + states'[1..];
    forall i | 0 <= i < |all|
      ensures Enabled(states2[i], all[i]) && states2[i + 1] == Step(states2[i], all[i])
    {
      if i >= |events| {
        assert states2[i] == states'[i - |events|] && states2[i + 1] == states'[i - |events| + 1];
      }
    }
  }

  /** The name is reserved in one pool. */
  lemma ReservedInOnePool() returns (events: seq<Event>, states: seq<State>, s: State)
    ensures Leads(Init(), events, states, s) && Inv(s) && "v" !in s.owner && "pvc" !in s.ops
    ensures Complete(s, Key("x", "pvc"))
  {
    var p := Pools("x", "x", true);
    s := Died(Init(), p, "pvc", "u", 3);
    events, states := DiedIsReached(Init(), p, "pvc", "u", 3);
    DiedPointing(Init(), p, "pvc", "u", 3);
    DiedKeeps(Init(), p, "pvc", "u", 3);
  }

  /** A run in which that happens: from state i on, all that is begun is one ReserveName, which gives up. */
  lemma DestroyedReservation() returns (events: seq<Event>, states: seq<State>, i: nat)
    ensures IsRun(states, events) && i < |states| && Complete(states[i], Key("x", "pvc"))
    ensures Key("x", "pvc") !in states[|events|].directory
    ensures OnlyBegins(events[i..], Reserve(Pools("j", "x", true)))
  {
    var p := Pools("j", "x", true);
    var before, states1, s := ReservedInOnePool();
    var after, states2 := GivenUpIsReached(s, p, "pvc", "v");
    GivingUpDestroys(s, p, "pvc", "v", false);
    LeadsThrough(Init(), before, states1, s, after, states2, Goto(GivenUp(s, p, "pvc", "v"), "pvc", Stopped));
    events, states, i := before + after, states1 + states2[1..], |before|;
    assert events[i..] == after;
  }
}
