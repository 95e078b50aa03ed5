/** Changing a container flag of a deployment (waitForContainersArgsUpdate in e2e/deployment.go). */
module Deployments {

  datatype Container = Container(name: string, args: seq<string>)

  function Flag(key: string, value: string): string {
    "--" + key + "=" + value
  }

  function FirstIndex(args: seq<string>, key: string): (i: nat)
    requires key in args
    ensures i < |args| && args[i] == key && key !in args[..i]
  {
    if args[0] == key then 0
    else
      var i := 1 + FirstIndex(args[1..], key);
      assert args[..i] == [args[0]] + args[1..][..i - 1];
      i
  }

  lemma FirstIndexIs(args: seq<string>, key: string, j: nat)
    requires j < |args| && args[j] == key && key !in args[..j]
    ensures FirstIndex(args, key) == j
  {
  }

  /** The first argument equal to the bare key is replaced by the flag; without one the flag is appended. */
  function Updated(args: seq<string>, key: string, value: string): seq<string> {
    if key in args then args[FirstIndex(args, key) := Flag(key, value)] else args + [Flag(key, value)]
  }

  class Deployment {
    var replicas: int
    var containers: array<Container>

    constructor (replicas: int, containers: array<Container>)
      ensures this.replicas == replicas && this.containers == containers
    {
      this.replicas, this.containers := replicas, containers;
    }

    /** The edit of one container: the inner loop with its match flag. */
    method UpdateContainer(i: nat, key: string, value: string)
      requires i < containers.Length
      modifies containers
      ensures containers[i] == old(containers[i]).(args := Updated(old(containers[i]).args, key, value))
      ensures forall j :: 0 <= j < containers.Length && j != i ==> containers[j] == old(containers[j])
    {
      var c := containers[i];
      var matched := false;
      for j := 0 to |c.args|
        invariant !matched && containers[..] == old(containers[..]) && key !in c.args[..j]
      {
        if c.args[j] == key {
          matched := true;
          FirstIndexIs(c.args, key, j);
          containers[i] := c.(args := c.args[j := Flag(key, value)]);
          break;
        }
      }
      if !matched {
        assert c.args[..|c.args|] == c.args;
        containers[i] := c.(args := c.args + [Flag(key, value)]);
      }
    }

    /**
      Scale to zero, edit, scale back.  The booleans are the outcomes of the calls to the API server, and
      whether one that is reported as failed took effect all the same.
    */
    method UpdateArgs(listed: set<string>, key: string, value: string,
                      available: bool, down: Call, fetched: bool, update: Call, up: Call, settled: bool)
      returns (ok: bool)
      modifies this`replicas, containers
      ensures ok <==> available && down.ok && fetched && update.ok && up.ok && settled
      ensures ok ==> replicas == old(replicas) && AllEdited(old(containers[..]), containers[..], listed, key, value)
      ensures ok ==> forall i :: 0 <= i < containers.Length ==>
                && containers[i].name == old(containers[i]).name
                && (containers[i].name !in listed ==> containers[i].args == old(containers[i]).args)
                && (containers[i].name in listed ==>
                      containers[i].args == Updated(old(containers[i]).args, key, value))
      ensures replicas == old(replicas) || replicas == 0
      ensures || containers[..] == old(containers[..])
              || AllEdited(old(containers[..]), containers[..], listed, key, value)
    {
      if !available {
        return false;
      }
      var count := replicas;
      if down.Takes() {
        replicas := 0;
      }
      if !down.ok || !fetched || !update.Takes() {
        return false;
      }
      EditContainers(listed, key, value);
      if !update.ok {
        return false;
      }
      if up.Takes() {
        replicas := count;
      }
      ok := up.ok && settled;
    }

    method EditContainers(listed: set<string>, key: string, value: string)
      modifies containers
      ensures AllEdited(old(containers[..]), containers[..], listed, key, value)
    {
      for i := 0 to containers.Length
        invariant forall j :: 0 <= j < containers.Length ==>
                    containers[j] == if j < i
                                     then Edited(old(containers[j]), listed, key, value) else old(containers[j])
      {
        if containers[i].name in listed {
          UpdateContainer(i, key, value);
        }
      }
    }
  }

  /** The outcome of a call that changes the cluster. */
  datatype Call = Call(ok: bool, tookAnyway: bool) {
    predicate Takes() {
      ok || tookAnyway
    }
  }

  function Edited(c: Container, listed: set<string>, key: string, value: string): Container {
    if c.name in listed then c.(args := Updated(c.args, key, value)) else c
  }

  ghost predicate AllEdited(before: seq<Container>, after: seq<Container>,
                            listed: set<string>, key: string, value: string)
  {
    |after| == |before| && forall i :: 0 <= i < |before| ==> after[i] == Edited(before[i], listed, key, value)
  }

  /** The first argument equal to the key becomes the flag; without one the flag is added at the end. */
  lemma UpdatedIs(args: seq<string>, key: string, value: string, i: nat)
    ensures i < |args| && args[i] == key && key !in args[..i] ==>
              Updated(args, key, value) == args[i := "--" + key + "=" + value]
    ensures key !in args ==> Updated(args, key, value) == args + ["--" + key + "=" + value]
  {
    if i < |args| && args[i] == key && key !in args[..i] {
      FirstIndexIs(args, key, i);
    }
  }

  /** The flag is there afterwards, with at most one more argument than before, the others unchanged. */
  lemma UpdatedHasFlag(args: seq<string>, key: string, value: string)
    ensures var after, flag := Updated(args, key, value), "--" + key + "=" + value;
            && flag in after && |args| <= |after| <= |args| + 1
            && forall i :: 0 <= i < |args| ==> after[i] == args[i] || (args[i] == key && after[i] == flag)
  {
    var after := Updated(args, key, value);
    if key in args {
      assert after[FirstIndex(args, key)] == Flag(key, value);
    } else {
      assert after[|args|] == Flag(key, value);
    }
  }

  /** The loop compares with the bare key, so a flag set by an earlier run is never replaced. */
  lemma OldFlagSurvives(args: seq<string>, key: string, old': string, value: string)
    requires "--" + key + "=" + old' in args
    ensures "--" + key + "=" + old' in Updated(args, key, value)
  {
    var flag := "--" + key + "=" + old';
    var i :| 0 <= i < |args| && args[i] == flag;
    assert |flag| > |key|;
    assert Updated(args, key, value)[i] == flag;
  }

  /** A second identical run is not a no-op: it replaces another bare key or appends the flag again. */
  lemma NeverIdempotent(args: seq<string>, key: string, value: string)
    ensures var once := Updated(args, key, value); Updated(once, key, value) != once
  {
  }
}
