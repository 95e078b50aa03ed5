/** Kubelet volume statistics (e2e/pvc.go). */
module Metrics {
  import opened Options
  import opened GoStrings

  const PREFIX := "kubelet_volume_stats_"

  /**
    The two label filters of one PVC, as text, and strconv.ParseFloat, which is partial; both are
    parameters of the parser.
  */
  datatype Query = Query(namespaceLabel: string, pvcLabel: string, parseFloat: string -> Option<real>)

  function MetricName(word: string): string {
    var i := Index(word, "{");
    if i != -1 then word[..i] else word
  }

  /** The metric on one line of the PVC, if there is one. */
  function ParseLine(q: Query, line: string): Option<(string, real)> {
    if !HasPrefix(line, PREFIX) || !Contains(line, q.namespaceLabel) || !Contains(line, q.pvcLabel) then None
    else
      var words := Fields(line);
      if |words| < 2 then None
      else
        var value := q.parseFloat(words[|words| - 1]);
        if value.None? then None else Some((MetricName(words[0]), value.value))
  }

  function ParseLines(q: Query, lines: seq<string>): map<string, real> {
    if lines == [] then map[]
    else
      Overridden(ParseLines(q, lines[..|lines| - 1]), ParseLine(q, lines[|lines| - 1]))
  }

  function Parsed(q: Query, text: string): map<string, real> {
    ParseLines(q, Split(text, '\n'))
  }

  /** parseVolumeStatsMetrics */
  method ParseVolumeStats(q: Query, text: string) returns (metrics: map<string, real>)
    ensures metrics == Parsed(q, text)
  {
    metrics := map[];
    var lines := Split(text, '\n');
    for i := 0 to |lines|
      invariant metrics == ParseLines(q, lines[..i])
    {
      var line := lines[i];
      assert lines[..i + 1][..i] == lines[..i];
      if !HasPrefix(line, PREFIX) {
        continue;
      }
      if !Contains(line, q.namespaceLabel) || !Contains(line, q.pvcLabel) {
        continue;
      }
      var parts := Fields(line);
      if |parts| < 2 {
        continue;
      }
      var value := q.parseFloat(parts[|parts| - 1]);
      if value.None? {
        continue;
      }
      metrics := metrics[MetricName(parts[0]) := value.value];
    }
    assert lines[..|lines|] == lines;
  }

  /** Reading one more line. */
  function Overridden(m: map<string, real>, metric: Option<(string, real)>): map<string, real> {
    if metric.Some? then m[metric.value.0 := metric.value.1] else m
  }

  lemma OverrideLast(a: map<string, real>, b: map<string, real>, metric: Option<(string, real)>)
    ensures Overridden(a + b, metric) == a + Overridden(b, metric)
  {
    if metric.Some? {
      var (k, v) := metric.value;
      assert (a + b)[k := v] == a + b[k := v];
    }
  }

  lemma {:induction false} LinesConcat(q: Query, a: seq<string>, b: seq<string>)
    ensures ParseLines(q, a + b) == ParseLines(q, a) + ParseLines(q, b)
  {
    if b == [] {
      assert a + b == a;
    } else {
      var n := |b| - 1;
      LinesConcat(q, a, b[..n]);
      assert (a + b)[..|a + b| - 1] == a + b[..n] && (a + b)[|a + b| - 1] == b[n];
      OverrideLast(ParseLines(q, a), ParseLines(q, b[..n]), ParseLine(q, b[n]));
    }
  }

  /** A report is read line by line, and later lines override earlier ones. */
  lemma ReportConcat(q: Query, a: string, b: string)
    ensures Parsed(q, a + "\n" + b) == Parsed(q, a) + Parsed(q, b)
  {
    assert a + "\n" + b == a + ['\n'] + b;
    SplitConcat(a, '\n', b);
    LinesConcat(q, Split(a, '\n'), Split(b, '\n'));
  }

  lemma PrefixIsWord()
    ensures Word(PREFIX) && '{' !in PREFIX
  {
  }

  lemma FirstWord(line: string, prefix: string)
    requires HasPrefix(line, prefix) && Word(prefix)
    ensures Fields(line) != [] && HasPrefix(Fields(line)[0], prefix)
  {
    var n := WordLength(line);
    assert forall i :: 0 <= i < |prefix| ==> line[i] == line[..|prefix|][i];
    assert n >= |prefix|;
    assert line[..n][..|prefix|] == line[..|prefix|];
  }

  lemma NameKeepsPrefix(word: string, prefix: string)
    requires HasPrefix(word, prefix) && '{' !in prefix
    ensures HasPrefix(MetricName(word), prefix) && !Contains(MetricName(word), "{")
  {
    var i := Index(word, "{");
    if i != -1 {
      assert word[i] == '{' by { assert word[i..i + 1] == "{"; }
      assert forall j :: 0 <= j < |prefix| ==> word[j] == word[..|prefix|][j] != '{';
      assert word[..i][..|prefix|] == word[..|prefix|];
      forall j | 0 <= j < i
        ensures !At(word[..i], "{", j)
      {
        assert word[..i][j..j + 1] == word[j..j + 1];
        assert !At(word, "{", j);
      }
    }
  }

  /** Every key is the bare name of a volume statistic. */
  lemma {:induction false} KeysAreNames(q: Query, lines: seq<string>, key: string)
    requires key in ParseLines(q, lines)
    ensures HasPrefix(key, "kubelet_volume_stats_") && !Contains(key, "{")
  {
    var n := |lines| - 1;
    var last := ParseLine(q, lines[n]);
    if last.Some? && last.value.0 == key {
      PrefixIsWord();
      FirstWord(lines[n], PREFIX);
      NameKeepsPrefix(Fields(lines[n])[0], PREFIX);
    } else {
      KeysAreNames(q, lines[..n], key);
    }
  }

  // ---------------------------------------------------------------- where a metric comes from

  /** The name on a line is what comes before the labels. */
  lemma NameIs(word: string)
    ensures '{' !in MetricName(word)
    ensures word == MetricName(word) || HasPrefix(word, MetricName(word) + "{")
  {
    var i := Index(word, "{");
    if i != -1 {
      assert word[i..i + 1] == "{";
      assert word[..i + 1] == word[..i] + word[i..i + 1];
      forall j | 0 <= j < i
        ensures word[j] != '{'
      {
        assert !At(word, "{", j) && |word[j..j + 1]| == 1;
        assert word[j..j + 1][0] == word[j];
      }
    } else {
      forall j | 0 <= j < |word|
        ensures word[j] != '{'
      {
        assert !At(word, "{", j) && |word[j..j + 1]| == 1;
        assert word[j..j + 1][0] == word[j];
      }
    }
  }

  /** The line is one of the PVC, with a value for the metric. */
  ghost predicate Yields(q: Query, line: string, key: string, value: real) {
    && HasPrefix(line, "kubelet_volume_stats_")
    && Contains(line, q.namespaceLabel) && Contains(line, q.pvcLabel)
    && |Fields(line)| >= 2 && MetricName(Fields(line)[0]) == key
    && q.parseFloat(Fields(line)[|Fields(line)| - 1]) == Some(value)
  }

  ghost predicate Silent(q: Query, line: string, key: string) {
    forall value :: !Yields(q, line, key, value)
  }

  lemma LineYields(q: Query, line: string, key: string)
    ensures forall value :: Yields(q, line, key, value) <==> ParseLine(q, line) == Some((key, value))
    ensures Silent(q, line, key) <==> ParseLine(q, line).None? || ParseLine(q, line).value.0 != key
  {
    if ParseLine(q, line).Some? && ParseLine(q, line).value.0 == key {
      assert Yields(q, line, key, ParseLine(q, line).value.1);
    }
  }

  /** The i-th line is the last one to give the metric a value, and gives it this one. */
  ghost predicate GivenBy(q: Query, lines: seq<string>, key: string, value: real, i: int) {
    && 0 <= i < |lines| && Yields(q, lines[i], key, value)
    && forall j :: i < j < |lines| ==> Silent(q, lines[j], key)
  }

  lemma GivenStep(q: Query, lines: seq<string>, last: string, key: string, value: real)
    ensures (exists i :: GivenBy(q, lines + [last], key, value, i)) <==>
            Yields(q, last, key, value) || (Silent(q, last, key) && exists i :: GivenBy(q, lines, key, value, i))
  {
    var all, n := lines + [last], |lines|;
    if Yields(q, last, key, value) {
      assert GivenBy(q, all, key, value, n);
    }
    forall i | GivenBy(q, all, key, value, i) && i < n
      ensures GivenBy(q, lines, key, value, i) && Silent(q, last, key)
    {
      assert all[n] == last && forall j :: 0 <= j < n ==> lines[j] == all[j];
    }
    forall i | GivenBy(q, lines, key, value, i) && Silent(q, last, key)
      ensures GivenBy(q, all, key, value, i)
    {
      assert forall j :: 0 <= j < |all| ==> all[j] == if j < n then lines[j] else last;
    }
  }

  /** A metric has the value of the last line of the PVC that gives it one, and no other line counts. */
  lemma {:induction false} MetricIff(q: Query, lines: seq<string>, key: string, value: real)
    ensures key in ParseLines(q, lines) && ParseLines(q, lines)[key] == value <==>
            exists i :: GivenBy(q, lines, key, value, i)
  {
    if lines != [] {
      var n := |lines| - 1;
      MetricIff(q, lines[..n], key, value);
      LineYields(q, lines[n], key);
      GivenStep(q, lines[..n], lines[n], key, value);
      assert lines == lines[..n] + [lines[n]];
    }
  }
}
