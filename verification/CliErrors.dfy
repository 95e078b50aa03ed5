/** Reading kubectl failures (e2e/errors.go): the stderr section of an error text, and its classifiers. */
module CliErrors {
  import opened Options
  import opened GoStrings

  const STDERR := "stderr:\n"
  const ERROR := "error:\n"

  /** The three classifiers differ in the marker they look for. */
  datatype Problem = AlreadyExists | NotFound | NoSuchResource {
    function Marker(): string {
      match this
      case AlreadyExists => "Error from server (AlreadyExists)"
      case NotFound => "Error from server (NotFound)"
      case NoSuchResource => "the server doesn't have a resource type"
    }
  }

  // ---------------------------------------------------------------- framing

  function GetStdErr(text: string): string {
    var start, end := Index(text, STDERR), Index(text, ERROR);
    if start == -1 || end == -1 || start + |STDERR| >= end then "" else text[start + |STDERR|..end]
  }

  /** The layout of kubectl's error text. */
  function Frame(head: string, body: string, tail: string): string {
    head + STDERR + body + ERROR + tail
  }

  lemma FrameAt(head: string, body: string, tail: string)
    ensures var s, h, b, e := Frame(head, body, tail), |head|, |head| + |STDERR|, |head| + |STDERR| + |body|;
            && e + |ERROR| <= |s| && s[0..h] == head && s[h..b] == STDERR
            && s[b..e] == body && s[e..e + |ERROR|] == ERROR
            && (forall i :: h <= i < b ==> s[i] == STDERR[i - h])
            && (forall i :: e <= i < e + |ERROR| ==> s[i] == ERROR[i - e])
  {
  }

  lemma Mismatch(s: string, sub: string, j: int, k: int)
    requires 0 <= j && 0 <= k < |sub| && j + k < |s| && s[j + k] != sub[k]
    ensures !At(s, sub, j)
  {
  }

  /** Inside a part of s, sub occurs just where it occurs in the part. */
  lemma Inside(s: string, sub: string, from: int, part: string, j: int)
    requires 0 <= from && from + |part| <= |s| && s[from..from + |part|] == part
    requires from <= j && j + |sub| <= from + |part|
    ensures At(s, sub, j) <==> At(part, sub, j - from)
  {
    SliceOfSlice(s, from, from + |part|, j - from, j - from + |sub|);
  }

  /** "stderr:\n" does not overlap itself, so it occurs first where the frame puts it. */
  lemma FirstStdErr(head: string, body: string, tail: string)
    requires !Contains(head, STDERR)
    ensures Index(Frame(head, body, tail), STDERR) == |head|
  {
    var s := Frame(head, body, tail);
    FrameAt(head, body, tail);
    forall j | 0 <= j < |head|
      ensures !At(s, STDERR, j)
    {
      if j + |STDERR| <= |head| {
        Inside(s, STDERR, 0, head, j);
      } else {
        Mismatch(s, STDERR, j, |head| - j);
      }
    }
    IndexIs(s, STDERR, |head|);
  }

  /** No "error:\n" begins inside "stderr:\n", ends inside it, or overlaps the next one. */
  lemma NoErrorBefore(head: string, body: string, tail: string, j: int)
    requires !Contains(head, ERROR) && !Contains(body, ERROR)
    requires 0 <= j < |head| + |STDERR| + |body|
    ensures !At(Frame(head, body, tail), ERROR, j)
  {
    var s, h, b := Frame(head, body, tail), |head|, |head| + |STDERR|;
    FrameAt(head, body, tail);
    if j + |ERROR| <= h {
      Inside(s, ERROR, 0, head, j);
    } else if j < h {
      Mismatch(s, ERROR, j, 6);
    } else if j < b {
      Mismatch(s, ERROR, j, if j == h + 3 then 3 else 0);
    } else if j + |ERROR| <= b + |body| {
      Inside(s, ERROR, b, body, j);
    } else {
      Mismatch(s, ERROR, j, b + |body| - j);
    }
  }

  lemma FirstError(head: string, body: string, tail: string)
    requires !Contains(head, ERROR) && !Contains(body, ERROR)
    ensures Index(Frame(head, body, tail), ERROR) == |head| + |STDERR| + |body|
  {
    var s, e := Frame(head, body, tail), |head| + |STDERR| + |body|;
    FrameAt(head, body, tail);
    forall j | 0 <= j < e
      ensures !At(s, ERROR, j)
    {
      NoErrorBefore(head, body, tail, j);
    }
    IndexIs(s, ERROR, e);
  }

  lemma ErrorInHead(head: string, body: string, tail: string)
    requires Contains(head, ERROR)
    ensures 0 <= Index(Frame(head, body, tail), ERROR) < |head|
  {
    FrameAt(head, body, tail);
    Inside(Frame(head, body, tail), ERROR, 0, head, Index(head, ERROR));
  }

  /** The stderr section is recovered, exactly when no "error:\n" comes before it. */
  lemma GetStdErrOfFrame(head: string, body: string, tail: string)
    requires !Contains(head, "stderr:\n") && !Contains(body, "error:\n")
    ensures GetStdErr(head + "stderr:\n" + body + "error:\n" + tail) == body <==>
            body == "" || !Contains(head, "error:\n")
  {
    FrameAt(head, body, tail);
    FirstStdErr(head, body, tail);
    if Contains(head, ERROR) {
      ErrorInHead(head, body, tail);
    } else {
      FirstError(head, body, tail);
    }
  }

  lemma CutHas(s: string, sub: string, from: int, to: int)
    requires 0 <= from <= to <= |s| && forall j :: from <= j < to ==> !At(s, sub, j)
    requires sub != ""
    ensures !Contains(s[from..to], sub)
  {
    forall j | 0 <= j <= to - from - |sub|
      ensures !At(s[from..to], sub, j)
    {
      Inside(s, sub, from, s[from..to], from + j);
    }
  }

  lemma FourCuts(s: string, a: int, b: int, c: int, d: int)
    requires 0 <= a <= b <= c <= d <= |s|
    ensures s == s[..a] + s[a..b] + s[b..c] + s[c..d] + s[d..]
  {
  }

  /** Whatever is recovered was framed that way. */
  lemma GetStdErrIsFramed(text: string) returns (head: string, tail: string)
    requires GetStdErr(text) != ""
    ensures text == head + "stderr:\n" + GetStdErr(text) + "error:\n" + tail
    ensures !Contains(head, "stderr:\n") && !Contains(GetStdErr(text), "error:\n")
  {
    var start, end := Index(text, STDERR), Index(text, ERROR);
    var from := start + |STDERR|;
    head, tail := text[..start], text[end + |ERROR|..];
    CutHas(text, STDERR, 0, start);
    CutHas(text, ERROR, from, end);
    FourCuts(text, start, from, end, end + |ERROR|);
  }

  // ---------------------------------------------------------------- classifiers

  function TrimSuffix(s: string, suffix: string): string {
    if |suffix| <= |s| && s[|s| - |suffix|..] == suffix then s[..|s| - |suffix|] else s
  }

  /** A line that does not speak against the verdict. */
  predicate Allowed(line: string, marker: string) {
    line == "" || Contains(line, "Warning") || Contains(line, marker)
  }

  predicate AllAllowed(body: string, marker: string) {
    forall i :: 0 <= i < |Split(body, '\n')| ==> Allowed(Split(body, '\n')[i], marker)
  }

  lemma NotTrimmed(line: string)
    requires '\n' !in line
    ensures TrimSuffix(line, "\n") == line
  {
    assert line != "" ==> line[|line| - 1..] == [line[|line| - 1]];
  }

  /** The loop shared by the three classifiers. */
  method EveryLineCarries(stdErr: string, marker: string) returns (ok: bool)
    ensures ok == AllAllowed(stdErr, marker)
  {
    var lines := Split(stdErr, '\n');
    for i := 0 to |lines|
      invariant forall j :: 0 <= j < i ==> Allowed(lines[j], marker)
    {
      var s := lines[i];
      SplitParts(stdErr, '\n', i);
      NotTrimmed(s);
      if TrimSuffix(s, "\n") == "" {
        continue;
      }
      if Contains(s, "Warning") {
        continue;
      }
      if !Contains(s, marker) {
        return false;
      }
    }
    return true;
  }

  /** isAlreadyExistsCLIError, isNotFoundCLIError and isNoSuchResourceCLIError */
  method IsCliError(err: Option<string>, problem: Problem) returns (ok: bool)
    ensures ok <==> err.Some? && GetStdErr(err.value) != "" && AllAllowed(GetStdErr(err.value), problem.Marker())
  {
    if err.None? {
      return false;
    }
    var stdErr := GetStdErr(err.value);
    if stdErr == "" {
      return false;
    }
    ok := EveryLineCarries(stdErr, problem.Marker());
  }

  /** Lines are judged one by one: a verdict on two texts is the conjunction of the verdicts. */
  lemma VerdictSplits(a: string, b: string, marker: string)
    ensures AllAllowed(a + "\n" + b, marker) <==> AllAllowed(a, marker) && AllAllowed(b, marker)
  {
    SplitConcat(a, '\n', b);
    var la, lb := Split(a, '\n'), Split(b, '\n');
    assert a + "\n" + b == a + ['\n'] + b;
    assert forall i :: 0 <= i < |la| ==> (la + lb)[i] == la[i];
    assert forall i :: |la| <= i < |la| + |lb| ==> (la + lb)[i] == lb[i - |la|];
    assert forall i :: 0 <= i < |lb| ==> lb[i] == (la + lb)[|la| + i];
  }

  /** The marker of each classifier, as kubectl prints it. */
  ghost predicate Carries(line: string, problem: Problem) {
    match problem
    case AlreadyExists => exists a, b :: line == a + "Error from server (AlreadyExists)" + b
    case NotFound => exists a, b :: line == a + "Error from server (NotFound)" + b
    case NoSuchResource => exists a, b :: line == a + "the server doesn't have a resource type" + b
  }

  /**
    End to end: a framed report of one problem per line is recognised exactly when each line that is
    neither blank nor a warning carries the marker of the problem.
  */
  lemma ReportVerdict(head: string, lines: seq<string>, tail: string, problem: Problem)
    requires |lines| > 0 && forall i :: 0 <= i < |lines| ==> '\n' !in lines[i]
    requires Join(lines, '\n') != "" && !Contains(Join(lines, '\n'), "error:\n")
    requires !Contains(head, "stderr:\n") && !Contains(head, "error:\n")
    ensures var body := GetStdErr(head + "stderr:\n" + Join(lines, '\n') + "error:\n" + tail);
            && body != ""
            && (AllAllowed(body, problem.Marker()) <==>
                forall i :: 0 <= i < |lines| ==>
                  lines[i] == "" || Carries(lines[i], problem) || exists a, b :: lines[i] == a + "Warning" + b)
  {
    GetStdErrOfFrame(head, Join(lines, '\n'), tail);
    SplitJoin(lines, '\n');
    forall i | 0 <= i < |lines|
      ensures Allowed(lines[i], problem.Marker()) <==>
              lines[i] == "" || Carries(lines[i], problem) || exists a, b :: lines[i] == a + "Warning" + b
    {
      ContainsIff(lines[i], problem.Marker());
      ContainsIff(lines[i], "Warning");
    }
  }
}
