/**
  Polling loops (e2e/rbd_helper.go, e2e/pod.go, e2e/pvc.go).

  wait.PollUntilContextTimeout with immediate set takes at least one sample, stops at the first that
  says so or fails, and otherwise ends with an error of the "interrupted" class.  A loop is modelled
  over the samples it can take before its deadline.
*/
module Polling {
  import opened Options

  /** An error, and whether wait.Interrupted recognises it or anything it wraps. */
  datatype Error = Interrupted | Failure(code: int)

  // ---------------------------------------------------------------- one probe

  /** An attempt to run a command in the toolbox pod; its output may not be what was asked for. */
  datatype Attempt<T> = Output(value: T) | Unreadable(code: int) | Retryable | Fatal(e: Error)

  datatype Sample<T> = Seen(value: T) | Failed(e: Error)

  /** execWithRetry and the reading of its output: a polling loop of its own, whose timeout is passed on. */
  method ExecProbe<T>(attempts: seq<Attempt<T>>) returns (s: Sample<T>)
    ensures s == ProbeOf(attempts)
  {
    for i := 0 to |attempts|
      invariant ProbeOf(attempts) == ProbeOf(attempts[i..])
    {
      match attempts[i]
      case Retryable =>
      case Fatal(e) => return Failed(e);
      case Unreadable(code) => return Failed(Failure(code));
      case Output(value) => return Seen(value);
    }
    return Failed(Interrupted);
  }

  function ProbeOf<T>(attempts: seq<Attempt<T>>): Sample<T> {
    if attempts == [] then Failed(Interrupted)
    else match attempts[0]
         case Retryable => ProbeOf(attempts[1..])
         case Fatal(e) => Failed(e)
         case Unreadable(code) => Failed(Failure(code))
         case Output(value) => Seen(value)
  }

  /** What a probe reports: the outcome of its first attempt that is not to be retried, or a timeout. */
  lemma ProbeOutcome<T>(attempts: seq<Attempt<T>>, k: nat)
    requires k <= |attempts| && forall i :: 0 <= i < k ==> attempts[i] == Retryable
    ensures k == |attempts| ==> ProbeOf(attempts) == Failed(Interrupted)
    ensures k < |attempts| && attempts[k].Output? ==> ProbeOf(attempts) == Seen(attempts[k].value)
    ensures k < |attempts| && attempts[k].Unreadable? ==> ProbeOf(attempts) == Failed(Failure(attempts[k].code))
    ensures k < |attempts| && attempts[k].Fatal? ==> ProbeOf(attempts) == Failed(attempts[k].e)
  {
    AnsweredBy(attempts, k);
  }

  /** A probe that was answered by the first attempt that is not retried, if there is one. */
  lemma {:induction false} AnsweredBy<T>(attempts: seq<Attempt<T>>, k: nat)
    requires k <= |attempts| && forall i :: 0 <= i < k ==> attempts[i] == Retryable
    ensures ProbeOf(attempts) == ProbeOf(attempts[k..])
  {
    if k > 0 {
      AnsweredBy(attempts[1..], k - 1);
      assert attempts[1..][k - 1..] == attempts[k..];
    }
  }

  ghost function Samples<T>(probes: seq<seq<Attempt<T>>>): seq<Sample<T>> {
    seq(|probes|, i requires 0 <= i < |probes| => ProbeOf(probes[i]))
  }

  // ---------------------------------------------------------------- waiting for something to be seen

  datatype Reason = NotYet | NoLongerHasParent | Probe(e: Error)

  predicate Waiting<T>(s: Sample<T>, done: T -> bool) {
    s.Seen? && !done(s.value)
  }

  /** The first sample that is not waited out, or the number of samples. */
  function Decisive<T>(samples: seq<Sample<T>>, done: T -> bool): (d: nat)
    ensures d <= |samples|
    ensures forall i :: 0 <= i < d ==> Waiting(samples[i], done)
    ensures d < |samples| ==> !Waiting(samples[d], done)
  {
    if samples == [] || !Waiting(samples[0], done) then 0 else 1 + Decisive(samples[1..], done)
  }

  /** What such a wait reports, with None for nil. */
  function Waited<T>(samples: seq<Sample<T>>, done: T -> bool): Option<Reason> {
    var d := Decisive(samples, done);
    if d == |samples| then Some(NotYet)
    else if samples[d].Seen? then None
    else if samples[d].e == Interrupted then if d == 0 then None else Some(NotYet)
    else Some(Probe(samples[d].e))
  }

  function Orphaned(): bool -> bool {
    hasParent => !hasParent
  }

  function Holds(image: string): seq<string> -> bool {
    names => image in names
  }

  /** What insisting on a parent until the deadline reports. */
  function Retained(samples: seq<Sample<bool>>): Option<Reason> {
    var d := Decisive(samples, Orphaned());
    if d == |samples| || samples[d] == Failed(Interrupted) then None
    else if samples[d].Seen? then Some(NoLongerHasParent)
    else Some(Probe(samples[d].e))
  }

  /** waitForRBDImageFlattened */
  method WaitFlattened(probes: seq<seq<Attempt<bool>>>) returns (err: Option<Reason>)
    requires |probes| > 0
    ensures err == Waited(Samples(probes), Orphaned())
  {
    var errReason: Option<Reason> := None;
    var pollErr: Option<Error> := Some(Interrupted);
    for i := 0 to |probes|
      invariant pollErr == Some(Interrupted) && i <= Decisive(Samples(probes), Orphaned())
      invariant errReason == if i == 0 then None else Some(NotYet)
    {
      var s := ExecProbe(probes[i]);
      assert s == Samples(probes)[i];
      if s.Failed? {
        pollErr := Some(s.e);
        break;
      }
      if !s.value {
        pollErr := None;
        break;
      }
      errReason := Some(NotYet);
    }
    if pollErr == Some(Interrupted) {
      return errReason;
    }
    return if pollErr.None? then None else Some(Probe(pollErr.value));
  }

  /** waitForRBDImageInTrash */
  method WaitInTrash(probes: seq<seq<Attempt<seq<string>>>>, image: string) returns (err: Option<Reason>)
    requires |probes| > 0
    ensures err == Waited(Samples(probes), Holds(image))
  {
    var errReason: Option<Reason> := None;
    var pollErr: Option<Error> := Some(Interrupted);
    for i := 0 to |probes|
      invariant pollErr == Some(Interrupted) && i <= Decisive(Samples(probes), Holds(image))
      invariant errReason == if i == 0 then None else Some(NotYet)
    {
      var s := ExecProbe(probes[i]);
      assert s == Samples(probes)[i];
      if s.Failed? {
        pollErr := Some(s.e);
        break;
      }
      var found := false;
      for j := 0 to |s.value|
        invariant !found && image !in s.value[..j]
      {
        if s.value[j] == image {
          found := true;
          break;
        }
      }
      assert found || s.value[..|s.value|] == s.value;
      if found {
        pollErr := None;
        break;
      }
      errReason := Some(NotYet);
    }
    if pollErr == Some(Interrupted) {
      return errReason;
    }
    return if pollErr.None? then None else Some(Probe(pollErr.value));
  }

  /** ensureRBDImageHasParent */
  method EnsureHasParent(probes: seq<seq<Attempt<bool>>>) returns (err: Option<Reason>)
    requires |probes| > 0
    ensures err == Retained(Samples(probes))
  {
    var errReason: Option<Reason> := None;
    var pollErr: Option<Error> := Some(Interrupted);
    for i := 0 to |probes|
      invariant pollErr == Some(Interrupted) && errReason == None && i <= Decisive(Samples(probes), Orphaned())
    {
      var s := ExecProbe(probes[i]);
      assert s == Samples(probes)[i];
      if s.Failed? {
        pollErr := Some(s.e);
        break;
      }
      if !s.value {
        errReason := Some(NoLongerHasParent);
        pollErr := None;
        break;
      }
    }
    if errReason.Some? {
      return errReason;
    }
    if pollErr == Some(Interrupted) {
      return None;
    }
    return if pollErr.None? then None else Some(Probe(pollErr.value));
  }

  // ---------------------------------------------------------------- what the waits decide

  /** The k-th sample ends the wait. */
  ghost predicate EndsAt<T>(samples: seq<Sample<T>>, done: T -> bool, k: int) {
    0 <= k < |samples| && !Waiting(samples[k], done) && forall j :: 0 <= j < k ==> Waiting(samples[j], done)
  }

  /**
    A wait returns nil exactly when what it waits for was seen, or when its first probe itself timed out;
    it passes on a plain error that comes before that; and otherwise it reports what it still waits for.
  */
  lemma WaitedIff<T>(samples: seq<Sample<T>>, done: T -> bool)
    requires |samples| > 0
    ensures Waited(samples, done).None? <==>
            samples[0] == Failed(Interrupted) || exists k :: EndsAt(samples, done, k) && samples[k].Seen?
    ensures forall e :: Waited(samples, done) == Some(Probe(e)) <==>
              e != Interrupted && exists k :: EndsAt(samples, done, k) && samples[k] == Failed(e)
    ensures Waited(samples, done) != Some(NoLongerHasParent)
  {
    DecisiveEnds(samples, done);
  }

  /** Only the decisive sample, if there is one, ends a wait. */
  lemma DecisiveEnds<T>(samples: seq<Sample<T>>, done: T -> bool)
    ensures forall k :: EndsAt(samples, done, k) <==> k == Decisive(samples, done) && k < |samples|
  {
  }

  /** Insisting on a parent: nil exactly when none was seen to be gone and no plain error came before the deadline. */
  lemma RetainedIff(samples: seq<Sample<bool>>)
    ensures Retained(samples).None? <==>
            forall k :: EndsAt(samples, hasParent => !hasParent, k) ==> samples[k] == Failed(Interrupted)
    ensures Retained(samples) == Some(NoLongerHasParent) <==>
            exists k :: EndsAt(samples, hasParent => !hasParent, k) && samples[k] == Seen(false)
    ensures Retained(samples) != Some(NotYet)
  {
    DecisiveEnds(samples, Orphaned());
    EndsWithout(samples);
  }

  /** A sample ends the wait for a lost parent exactly if it is the first that has none or is an error. */
  lemma EndsWithout(samples: seq<Sample<bool>>)
    ensures forall k :: EndsAt(samples, hasParent => !hasParent, k) <==> EndsAt(samples, Orphaned(), k)
  {
  }

  /** The image is flattened when a sample has no parent and each before it has one. */
  lemma FlattenedIff(samples: seq<Sample<bool>>)
    requires |samples| > 0
    ensures Waited(samples, Orphaned()).None? <==>
            || samples[0] == Failed(Interrupted)
            || exists k :: 0 <= k < |samples| && samples[k] == Seen(false) &&
                 forall j :: 0 <= j < k ==> samples[j] == Seen(true)
  {
    DecisiveEnds(samples, Orphaned());
  }

  /** The image is in the trash when a listing has it and each before it does not. */
  lemma InTrashIff(samples: seq<Sample<seq<string>>>, image: string)
    requires |samples| > 0
    ensures Waited(samples, Holds(image)).None? <==>
            || samples[0] == Failed(Interrupted)
            || exists k :: 0 <= k < |samples| && samples[k].Seen? && image in samples[k].value &&
                 forall j :: 0 <= j < k ==> samples[j].Seen? && image !in samples[j].value
  {
    DecisiveEnds(samples, Holds(image));
  }

  /** When the sample that ends the wait is an error: of either class. */
  ghost predicate EndsInFailure(samples: seq<Sample<bool>>, interrupted: bool) {
    exists k :: EndsAt(samples, Orphaned(), k) && samples[k].Failed? && (samples[k].e == Interrupted <==> interrupted)
  }

  /**
    Waiting for no parent and insisting on one are each other's opposite on the same samples, except in
    two cases: a plain probe error fails both, and a first probe that itself times out passes both.
  */
  lemma Duality(samples: seq<Sample<bool>>)
    requires |samples| > 0
    ensures var flattened := Waited(samples, Orphaned());
            && ((flattened.None? <==> Retained(samples).Some?) <==>
                !EndsInFailure(samples, false) && samples[0] != Failed(Interrupted))
            && (EndsInFailure(samples, false) ==> flattened.Some? && flattened == Retained(samples))
            && (samples[0] == Failed(Interrupted) ==> flattened.None? && Retained(samples).None?)
  {
  }

  /** Without probe errors the verdict is whether some sample has no parent. */
  lemma DecidedByAnySample(samples: seq<Sample<bool>>)
    requires |samples| > 0 && forall i :: 0 <= i < |samples| ==> samples[i].Seen?
    ensures Waited(samples, Orphaned()).None? <==> Seen(false) in samples
    ensures Retained(samples).None? <==> Seen(false) !in samples
  {
  }

  /** A toolbox pod that answers no attempt of the first probe makes both waits return nil. */
  lemma UnansweredPassesBoth(probes: seq<seq<Attempt<bool>>>)
    requires |probes| > 0 && forall i :: 0 <= i < |probes[0]| ==> probes[0][i] == Retryable
    ensures Waited(Samples(probes), Orphaned()).None? && Retained(Samples(probes)).None?
  {
    AnsweredBy(probes[0], |probes[0]|);
    assert Samples(probes)[0] == Failed(Interrupted);
    Duality(Samples(probes));
  }

  // ---------------------------------------------------------------- deleting and confirming

  /** What a Get call says about an object. */
  datatype Look = Present | Absent | Transient | Broken

  /** The loop of both delete protocols on one object: nil after NotFound, an error otherwise. */
  method ConfirmAbsent(looks: seq<Look>) returns (ok: bool)
    ensures ok <==> Confirmed(looks)
    ensures ok <==> exists k :: 0 <= k < |looks| && looks[k] == Absent &&
                      forall j :: 0 <= j < k ==> looks[j] == Present || looks[j] == Transient
  {
    for i := 0 to |looks|
      invariant forall j :: 0 <= j < i ==> looks[j] == Present || looks[j] == Transient
    {
      match looks[i]
      case Present =>
      case Transient =>
      case Broken => return false;
      case Absent =>
        assert ConfirmedAt(looks, i);
        return true;
    }
    return false;
  }

  /** The object was seen to be gone, with nothing but waiting and transient errors before. */
  ghost predicate Confirmed(looks: seq<Look>) {
    exists k :: ConfirmedAt(looks, k)
  }

  ghost predicate ConfirmedAt(looks: seq<Look>, k: int) {
    0 <= k < |looks| && looks[k] == Absent && forall j :: 0 <= j < k ==> looks[j] == Present || looks[j] == Transient
  }

  /** deletePVCAndPV */
  method DeletePvcAndPv(pvcDeleted: bool, pvDeleted: bool, pvcLooks: seq<Look>, pvLooks: seq<Look>) returns (ok: bool)
    ensures ok <==> pvcDeleted && pvDeleted && Confirmed(pvcLooks) && Confirmed(pvLooks)
  {
    if !pvcDeleted {
      return false;
    }
    if !pvDeleted {
      return false;
    }
    ok := ConfirmAbsent(pvcLooks);
    if !ok {
      return;
    }
    ok := ConfirmAbsent(pvLooks);
  }

  /** One round of deletePVCAndValidatePV looks at the PV only once the PVC is gone. */
  function Round(pvc: Look, pv: Look): Look {
    if pvc == Absent then pv else pvc
  }

  /** getPersistentVolumeClaim and getPersistentVolume */
  method Fetch(looks: seq<Look>) returns (ok: bool)
    ensures ok <==> exists k :: FetchedAt(looks, k)
    ensures ok <==> exists k :: 0 <= k < |looks| && looks[k] == Present &&
                      forall j :: 0 <= j < k ==> looks[j] == Transient
  {
    for i := 0 to |looks|
      invariant forall j :: 0 <= j < i ==> looks[j] == Transient
    {
      if looks[i] != Transient {
        assert looks[i] == Present ==> FetchedAt(looks, i);
        return looks[i] == Present;
      }
    }
    return false;
  }

  ghost predicate FetchedAt(looks: seq<Look>, k: int) {
    0 <= k < |looks| && looks[k] == Present && forall j :: 0 <= j < k ==> looks[j] == Transient
  }

  /** deletePVCAndValidatePV: find both objects, delete the PVC, confirm that both go. */
  method DeletePvcAndValidatePv(pvcGets: seq<Look>, pvGets: seq<Look>, deleted: bool, rounds: seq<(Look, Look)>)
    returns (ok: bool)
    ensures ok <==> (exists k :: FetchedAt(pvcGets, k)) && (exists k :: FetchedAt(pvGets, k)) && deleted &&
                    (exists k :: RoundConfirmedAt(rounds, k))
    ensures ok ==> exists k :: 0 <= k < |rounds| && rounds[k] == (Absent, Absent)
    ensures forall k :: 0 <= k < |rounds| && rounds[k].0 == Broken && ok ==>
              exists j :: 0 <= j < k && rounds[j] == (Absent, Absent)
    ensures forall k :: 0 <= k < |rounds| && rounds[k] == (Absent, Broken) && ok ==>
              exists j :: 0 <= j < k && rounds[j] == (Absent, Absent)
  {
    ok := Fetch(pvcGets);
    if !ok {
      return;
    }
    ok := Fetch(pvGets);
    if !ok {
      return;
    }
    if !deleted {
      return false;
    }
    for i := 0 to |rounds|
      invariant forall j :: 0 <= j < i ==> Waits(rounds[j])
    {
      var (pvc, pv) := rounds[i];
      if pvc == Present || pvc == Transient {
        continue;
      }
      if pvc != Absent {
        return false;
      }
      if pv == Present || pv == Transient {
        continue;
      }
      if pv != Absent {
        return false;
      }
      assert RoundConfirmedAt(rounds, i);
      return true;
    }
    return false;
  }

  predicate Waits(round: (Look, Look)) {
    Round(round.0, round.1) == Present || Round(round.0, round.1) == Transient
  }

  ghost predicate RoundConfirmedAt(rounds: seq<(Look, Look)>, k: int) {
    0 <= k < |rounds| && rounds[k] == (Absent, Absent) && forall j :: 0 <= j < k ==> Waits(rounds[j])
  }

  // ---------------------------------------------------------------- what a confirmed deletion means

  datatype World = World(pvc: bool, pv: bool)

  /** Nothing that is gone comes back. */
  ghost predicate NeverRecreates(history: seq<World>) {
    forall i, j :: 0 <= i <= j < |history| ==> (history[j].pvc ==> history[i].pvc) && (history[j].pv ==> history[i].pv)
  }

  ghost predicate Truthful(look: Look, there: bool) {
    (look == Present ==> there) && (look == Absent ==> !there)
  }

  /** Each look at the PVC, then each look at the PV, is taken at a moment of the history. */
  ghost predicate LooksAt(pvcLooks: seq<Look>, pvLooks: seq<Look>, history: seq<World>) {
    && |history| == |pvcLooks| + |pvLooks| + 1
    && (forall i :: 0 <= i < |pvcLooks| ==> Truthful(pvcLooks[i], history[i].pvc))
    && (forall i :: 0 <= i < |pvLooks| ==> Truthful(pvLooks[i], history[|pvcLooks| + i].pv))
  }

  /** deletePVCAndPV returning nil means that both objects are gone at return, whatever happened on the way. */
  lemma ConfirmedMeansGone(pvcLooks: seq<Look>, pvLooks: seq<Look>, history: seq<World>)
    requires LooksAt(pvcLooks, pvLooks, history) && NeverRecreates(history)
    requires Confirmed(pvcLooks) && Confirmed(pvLooks)
    ensures history[|history| - 1] == World(false, false)
  {
  }

  /** Round i looks at the PVC at moment 2i and at the PV at moment 2i + 1. */
  ghost predicate RoundsAt(rounds: seq<(Look, Look)>, history: seq<World>) {
    && |history| == 2 * |rounds| + 1
    && forall i :: 0 <= i < |rounds| ==>
         Truthful(rounds[i].0, history[2 * i].pvc) && Truthful(rounds[i].1, history[2 * i + 1].pv)
  }

  /** deletePVCAndValidatePV returning nil means the same. */
  lemma RoundConfirmedMeansGone(rounds: seq<(Look, Look)>, history: seq<World>, k: int)
    requires RoundsAt(rounds, history) && NeverRecreates(history) && RoundConfirmedAt(rounds, k)
    ensures history[|history| - 1] == World(false, false)
  {
  }
}
