/**
  The fork/join pattern of createConcurrentPods and deleteConcurrentPods (e2e/nvmeof_helper.go): one
  goroutine per index, a WaitGroup, and a shared slice in which each goroutine writes its own slot.
*/
module Workers {
  import opened Options

  ghost function FailedSlots<E>(outcomes: seq<Option<E>>): set<nat> {
    set i: nat | i < |outcomes| && outcomes[i].Some?
  }

  lemma {:induction false} FailingIsSize<E>(outcomes: seq<Option<E>>)
    ensures Failing(outcomes) == |FailedSlots(outcomes)|
  {
    if outcomes == [] {
      assert FailedSlots(outcomes) == {};
    } else {
      var n := |outcomes| - 1;
      FailingIsSize(outcomes[..n]);
      assert FailedSlots(outcomes) == FailedSlots(outcomes[..n]) + if outcomes[n].Some? then {n} else {};
    }
  }

  ghost function Failing<E>(outcomes: seq<Option<E>>): nat {
    if outcomes == [] then 0
    else Failing(outcomes[..|outcomes| - 1]) + (if outcomes[|outcomes| - 1].Some? then 1 else 0)
  }

  // ---------------------------------------------------------------- the pool

  /** One moment of the pool: the WaitGroup counter and the workers that have not finished. */
  datatype Moment = Moment(wg: int, unfinished: set<nat>)

  /** From the start on the counter is the number of unfinished workers, and they finish one by one. */
  ghost predicate Counting(trace: seq<Moment>, n: nat) {
    && trace != [] && trace[0].wg == n
    && (forall i: nat :: i in trace[0].unfinished <==> i < n)
    && (forall i :: 0 <= i < |trace| ==> trace[i].wg == |trace[i].unfinished|)
    && (forall i :: 0 < i < |trace| ==>
          trace[i].unfinished <= trace[i - 1].unfinished && trace[i].wg == trace[i - 1].wg - 1)
  }

  lemma CountingOn(trace: seq<Moment>, n: nat, m: Moment)
    requires Counting(trace, n) && m.wg == |m.unfinished|
    requires var last := trace[|trace| - 1]; m.unfinished <= last.unfinished && m.wg == last.wg - 1
    ensures Counting(trace + [m], n)
  {
  }

  /** The slots and the number of times each was written, when some workers have not finished. */
  ghost predicate Filled<E>(slots: seq<Option<E>>, writes: seq<nat>, outcomes: seq<Option<E>>, unfinished: set<nat>) {
    && |slots| == |writes| == |outcomes|
    && forall i: nat :: i < |outcomes| ==>
         if i in unfinished then writes[i] == 0 else writes[i] == 1 && slots[i] == outcomes[i]
  }

  function Range(n: nat): (r: set<nat>)
    ensures |r| == n && forall i: nat :: i in r <==> i < n
  {
    if n == 0 then {} else Range(n - 1) + {n - 1}
  }

  /** What the goroutines share: the error slice and the WaitGroup. */
  class Pool<E> {
    const outcomes: seq<Option<E>>
    const wgErrs: array<Option<E>>
    var wg: int
    var started: nat
    var running: set<nat>
    ghost var unfinished: set<nat>
    ghost var writes: seq<nat>
    ghost var trace: seq<Moment>

    ghost predicate Valid()
      reads this, wgErrs
    {
      && started <= |outcomes| && Filled(wgErrs[..], writes, outcomes, unfinished)
      && (forall i: nat :: i in unfinished <==> started <= i < |outcomes| || i in running)
      && (forall i :: i in running ==> i < started)
      && Counting(trace, |outcomes|) && trace[|trace| - 1] == Moment(wg, unfinished)
    }

    constructor (outcomes: seq<Option<E>>)
      ensures Valid() && this.outcomes == outcomes && fresh(wgErrs)
    {
      this.outcomes := outcomes;
      wgErrs := new Option<E>[|outcomes|](_ => None);
      wg, started, running, unfinished := |outcomes|, 0, {}, Range(|outcomes|);
      writes, trace := seq(|outcomes|, _ => 0), [Moment(|outcomes|, Range(|outcomes|))];
    }

    /** The loop starts the next goroutine. */
    method Start()
      requires Valid() && started < |outcomes|
      modifies this
      ensures Valid() && started == old(started) + 1 && wg == old(wg)
    {
      running := running + {started};
      started := started + 1;
    }

    /** A goroutine writes its slot and is done. */
    method Finish(i: nat)
      requires Valid() && i in running
      modifies this, wgErrs
      ensures Valid() && started == old(started) && wg == old(wg) - 1
    {
      wgErrs[i] := outcomes[i];
      wg := wg - 1;
      running := running - {i};
      unfinished := unfinished - {i};
      CountingOn(trace, |outcomes|, Moment(wg, unfinished));
      writes, trace := writes[i := writes[i] + 1], trace + [Moment(wg, unfinished)];
    }
  }

  /**
    Whatever order the goroutines run in, some of them possibly before others are started, the slice
    ends up holding each worker's own outcome, every slot is written once, `failed` counts the workers
    that failed, and at every moment the WaitGroup counter is the number of workers that have not
    finished.
  */
  method RunWorkers<E>(outcomes: seq<Option<E>>)
    returns (errors: seq<Option<E>>, failed: nat, ghost writes: seq<nat>, ghost trace: seq<Moment>)
    ensures errors == outcomes && failed == |FailedSlots(outcomes)|
    ensures |writes| == |outcomes| && forall i :: 0 <= i < |writes| ==> writes[i] == 1
    ensures Counting(trace, |outcomes|) && trace[|trace| - 1].wg == 0
  {
    var pool := new Pool(outcomes);
    while pool.wg > 0
      invariant pool.Valid() && pool.outcomes == outcomes && fresh(pool) && fresh(pool.wgErrs)
      decreases |outcomes| - pool.started, pool.wg
    {
      var startNext: bool := *;
      if pool.running == {} || (pool.started < |outcomes| && startNext) {
        assert exists i :: i in pool.unfinished;
        pool.Start();
      } else {
        var i :| i in pool.running;
        pool.Finish(i);
      }
    }
    errors, writes, trace := pool.wgErrs[..], pool.writes, pool.trace;
    assert pool.unfinished == {};
    failed := CountFailures(errors);
    FailingIsSize(outcomes);
  }

  method CountFailures<E>(errors: seq<Option<E>>) returns (failed: nat)
    ensures failed == Failing(errors)
  {
    failed := 0;
    for i := 0 to |errors|
      invariant failed == Failing(errors[..i])
    {
      assert errors[..i + 1][..i] == errors[..i];
      if errors[i].Some? {
        failed := failed + 1;
      }
    }
    assert errors[..|errors|] == errors;
  }
}
