/**
  Checking the I/O limits of a pod: the cgroup v2 io.max reader of the end-to-end tests
  (e2e/rbd_helper.go), against the driver's writer of the same format (internal/rbd/cgroup_qos.go).
*/
module IoMax {
  import opened Options
  import opened GoStrings
  import opened Numerals

  // ---------------------------------------------------------------- device IDs

  function DeviceId(major: int, minor: int): string {
    Decimal(major) + ":" + Decimal(minor)
  }

  /** The numeric part of getDeviceIDOnNode: from the output of stat -c '%t:%T' to major:minor. */
  function DeviceIdFromStat(output: string): Option<string> {
    var parts := SplitN(TrimSpace(output), ':', 2);
    if |parts| != 2 then None
    else
      var major, minor := ParseInt(parts[0], Sixteen), ParseInt(parts[1], Sixteen);
      if major.None? || minor.None? then None else Some(DeviceId(major.value, minor.value))
  }

  lemma DigitsAreWord(s: string)
    requires s != "" && forall i :: 0 <= i < |s| ==> IsDigit(s[i])
    ensures Word(s) && ':' !in s && '=' !in s
  {
  }

  lemma TrimNewline(s: string)
    requires Word(s)
    ensures TrimSpace(s + "\n") == s
  {
    var t := s + "\n";
    assert t[..|t| - 1] == s;
    assert TrimRight(t) == TrimRight(s);
  }

  /** Hexadecimal to decimal is exact for every device number below 2^63. */
  lemma StatRoundTrip(major: nat, minor: nat)
    requires Int64(major) && Int64(minor)
    ensures DeviceIdFromStat(Render(major, Sixteen) + ":" + Render(minor, Sixteen) + "\n") ==
            Some(DeviceId(major, minor))
  {
    var a, b := Render(major, Sixteen), Render(minor, Sixteen);
    RenderDigits(major, Sixteen);
    RenderDigits(minor, Sixteen);
    DigitsAreWord(a);
    DigitsAreWord(b);
    var s := a + ":" + b;
    assert Word(s);
    TrimNewline(s);
    assert s == a + [':'] + b;
    SplitNCut(a, ':', b, 2);
    ParseRender(major, Sixteen);
    ParseRender(minor, Sixteen);
  }

  lemma DeviceIdIsWord(major: int, minor: int)
    ensures Word(DeviceId(major, minor))
  {
    DecimalChars(major);
    DecimalChars(minor);
  }

  lemma DeviceIdParts(major: int, minor: int)
    ensures SplitN(DeviceId(major, minor), ':', 2) == [Decimal(major), Decimal(minor)]
  {
    DecimalChars(major);
    assert ':' !in Decimal(major);
    assert DeviceId(major, minor) == Decimal(major) + [':'] + Decimal(minor);
    SplitNCut(Decimal(major), ':', Decimal(minor), 2);
  }

  /** Different devices have different IDs. */
  lemma DeviceIdInjective(a: int, b: int, a': int, b': int)
    requires DeviceId(a, b) == DeviceId(a', b')
    ensures a == a' && b == b'
  {
    DeviceIdParts(a, b);
    DeviceIdParts(a', b');
    assert [Decimal(a), Decimal(b)][0] == [Decimal(a'), Decimal(b')][0];
    assert [Decimal(a), Decimal(b)][1] == [Decimal(a'), Decimal(b')][1];
    DecimalInjective(a, a');
    DecimalInjective(b, b');
  }

  // ---------------------------------------------------------------- the reader

  const FIELDS: map<string, string> :=
    map["maxReadIops" := "riops", "maxWriteIops" := "wiops", "maxReadBps" := "rbps", "maxWriteBps" := "wbps"]

  predicate IsLineOf(line: string, device: string) {
    HasPrefix(line, device + " ") || HasPrefix(line, device + "\t")
  }

  /** The first line of the device, trimmed, or "". */
  function DeviceLine(lines: seq<string>, device: string): string {
    if lines == [] then ""
    else if IsLineOf(TrimSpace(lines[0]), device) then TrimSpace(lines[0])
    else DeviceLine(lines[1..], device)
  }

  /** The key=value words; of two values for a key the later counts. */
  function Limits(words: seq<string>): map<string, string> {
    if words == [] then map[]
    else
      var before, parts := Limits(words[..|words| - 1]), SplitN(words[|words| - 1], '=', 2);
      if |parts| == 2 then before[parts[0] := parts[1]] else before
  }

  ghost predicate Meets(actual: map<string, string>, wants: map<string, string>) {
    forall p :: p in wants && p in FIELDS ==> FIELDS[p] in actual && actual[FIELDS[p]] == wants[p]
  }

  /** The limits on the line of the device. */
  function Actual(content: string, device: string): map<string, string> {
    var words := Fields(DeviceLine(Split(content, '\n'), device));
    if words == [] then map[] else Limits(words[1..])
  }

  ghost predicate Accepted(content: string, device: string, wants: map<string, string>) {
    DeviceLine(Split(content, '\n'), device) != "" && Meets(Actual(content, device), wants)
  }

  datatype Verdict = Ok | NoDevice | NoField(param: string) | Differs(param: string)

  lemma {:induction false} DeviceLineStarts(lines: seq<string>, device: string)
    ensures var line := DeviceLine(lines, device); line != "" ==> Fields(line) != []
  {
    if lines != [] {
      TrimStarts(lines[0]);
      DeviceLineStarts(lines[1..], device);
    }
  }

  lemma TrimStarts(s: string)
    ensures var t := TrimSpace(s); t != "" ==> !IsSpace(t[0])
  {
    LeftStarts(s);
    RightKeeps(TrimLeft(s));
  }

  lemma {:induction false} LeftStarts(s: string)
    ensures var t := TrimLeft(s); t != "" ==> !IsSpace(t[0])
  {
    if s != "" && IsSpace(s[0]) {
      LeftStarts(s[1..]);
    }
  }

  lemma {:induction false} RightKeeps(s: string)
    ensures TrimRight(s) <= s
  {
    if s != "" && IsSpace(s[|s| - 1]) {
      RightKeeps(s[..|s| - 1]);
    }
  }

  method FindDeviceLine(lines: seq<string>, device: string) returns (deviceLine: string)
    ensures deviceLine == DeviceLine(lines, device)
  {
    for i := 0 to |lines|
      invariant DeviceLine(lines, device) == DeviceLine(lines[i..], device)
    {
      var line := TrimSpace(lines[i]);
      if IsLineOf(line, device) {
        return line;
      }
    }
    return "";
  }

  method ReadLimits(words: seq<string>) returns (actual: map<string, string>)
    ensures actual == Limits(words)
  {
    actual := map[];
    for i := 0 to |words|
      invariant actual == Limits(words[..i])
    {
      var parts := SplitN(words[i], '=', 2);
      assert words[..i + 1][..i] == words[..i];
      if |parts| == 2 {
        actual := actual[parts[0] := parts[1]];
      }
    }
    assert words[..|words|] == words;
  }

  /** The wanted parameters are visited in no particular order. */
  method CheckLimits(actual: map<string, string>, wants: map<string, string>) returns (v: Verdict)
    ensures !v.NoDevice? && (v.Ok? <==> Meets(actual, wants))
    ensures v.NoField? ==> v.param in wants && v.param in FIELDS && FIELDS[v.param] !in actual
    ensures v.Differs? ==>
              && v.param in wants && v.param in FIELDS
              && FIELDS[v.param] in actual && actual[FIELDS[v.param]] != wants[v.param]
  {
    var params := wants.Keys;
    while params != {}
      invariant params <= wants.Keys
      invariant forall p :: p in wants && p !in params && p in FIELDS ==>
                  FIELDS[p] in actual && actual[FIELDS[p]] == wants[p]
    {
      var p :| p in params;
      params := params - {p};
      if p !in FIELDS {
        continue;
      }
      if FIELDS[p] !in actual {
        return NoField(p);
      }
      if actual[FIELDS[p]] != wants[p] {
        return Differs(p);
      }
    }
    return Ok;
  }

  /** verifyIOMaxContent */
  method VerifyIoMax(content: string, device: string, wants: map<string, string>) returns (v: Verdict)
    ensures v.Ok? <==> Accepted(content, device, wants)
    ensures v.NoDevice? <==> DeviceLine(Split(content, '\n'), device) == ""
    ensures v.NoField? ==> v.param in wants && v.param in FIELDS && FIELDS[v.param] !in Actual(content, device)
    ensures v.Differs? ==>
              && v.param in wants && v.param in FIELDS && FIELDS[v.param] in Actual(content, device)
              && Actual(content, device)[FIELDS[v.param]] != wants[v.param]
  {
    var lines := Split(content, '\n');
    var deviceLine := FindDeviceLine(lines, device);
    if deviceLine == "" {
      return NoDevice;
    }
    DeviceLineStarts(lines, device);
    var actual := ReadLimits(Fields(deviceLine)[1..]);
    v := CheckLimits(actual, wants);
  }

  // ---------------------------------------------------------------- the format

  datatype Limit = Limit(key: string, value: string) {
    function Show(): string {
      key + "=" + value
    }

    ghost predicate Valid() {
      && '=' !in key
      && (forall i :: 0 <= i < |key| ==> !IsSpace(key[i]))
      && (forall i :: 0 <= i < |value| ==> !IsSpace(value[i]))
    }
  }

  /** One device of an io.max file. */
  datatype Entry = Entry(device: string, limits: seq<Limit>) {
    function Words(): seq<string> {
      [device] + seq(|limits|, i requires 0 <= i < |limits| => limits[i].Show())
    }

    function Line(): string {
      Join(Words(), ' ')
    }

    ghost predicate Valid() {
      Word(device) && limits != [] && forall i :: 0 <= i < |limits| ==> limits[i].Valid()
    }
  }

  function LimitMap(limits: seq<Limit>): map<string, string> {
    if limits == [] then map[]
    else LimitMap(limits[..|limits| - 1])[limits[|limits| - 1].key := limits[|limits| - 1].value]
  }

  function Lines(table: seq<Entry>): seq<string> {
    seq(|table|, i requires 0 <= i < |table| => table[i].Line())
  }

  function File(table: seq<Entry>): string {
    if table == [] then "" else Join(Lines(table), '\n')
  }

  ghost predicate ValidTable(table: seq<Entry>) {
    && (forall i :: 0 <= i < |table| ==> table[i].Valid())
    && (forall i, j :: 0 <= i < j < |table| ==> table[i].device != table[j].device)
  }

  lemma ShowIsWord(l: Limit)
    requires l.Valid()
    ensures Word(l.Show()) && SplitN(l.Show(), '=', 2) == [l.key, l.value]
  {
    assert l.Show() == l.key + ['='] + l.value;
    SplitNCut(l.key, '=', l.value, 2);
  }

  lemma WordsAreWords(e: Entry)
    requires e.Valid()
    ensures forall i :: 0 <= i < |e.Words()| ==> Word(e.Words()[i])
  {
  }

  lemma {:induction false} LimitsOfShown(words: seq<string>, limits: seq<Limit>)
    requires |words| == |limits| && forall i :: 0 <= i < |limits| ==> limits[i].Valid() && words[i] == limits[i].Show()
    ensures Limits(words) == LimitMap(limits)
  {
    if words != [] {
      var n := |words| - 1;
      LimitsOfShown(words[..n], limits[..n]);
      ShowIsWord(limits[n]);
    }
  }

  /** A line is one of the device it begins with, even if the device's ID is a prefix of another's. */
  lemma PrefixIsDevice(device: string, c: char, rest: string, query: string)
    requires Word(device) && Word(query) && (c == ' ' || c == '\t')
    ensures IsLineOf(device + [c] + rest, query) <==> device == query
  {
    var line := device + [c] + rest;
    PrefixChars(line, query, ' ');
    PrefixChars(line, query, '\t');
    assert line[|device|] == c && forall i :: 0 <= i < |device| ==> line[i] == device[i];
  }

  lemma PrefixChars(line: string, word: string, c: char)
    ensures HasPrefix(line, word + [c]) <==>
            |line| > |word| && line[|word|] == c && forall i :: 0 <= i < |word| ==> line[i] == word[i]
  {
  }

  /** What the reader makes of one line. */
  lemma LineOfEntry(e: Entry, query: string)
    requires e.Valid() && Word(query)
    ensures '\n' !in e.Line() && e.Line() != "" && TrimSpace(e.Line()) == e.Line()
    ensures IsLineOf(e.Line(), query) <==> e.device == query
    ensures Fields(e.Line()) == e.Words() && Limits(e.Words()[1..]) == LimitMap(e.limits)
  {
    WordsAreWords(e);
    JoinEnds(e.Words(), ' ');
    TrimJoin(e.Words(), ' ');
    FieldsJoin(e.Words(), ' ');
    JoinLacks(e.Words(), ' ', '\n');
    assert e.Words()[0] == e.device;
    PrefixIsDevice(e.device, ' ', Join(e.Words()[1..], ' '), query);
    LimitsOfShown(e.Words()[1..], e.limits);
  }

  /** The line the reader finds is the line of the device asked for. */
  lemma {:induction false} LookupIn(table: seq<Entry>, lines: seq<string>, query: string)
    requires ValidTable(table) && Word(query) && lines == Lines(table)
    ensures (forall i :: 0 <= i < |table| ==> table[i].device != query) ==> DeviceLine(lines, query) == ""
    ensures forall i :: 0 <= i < |table| && table[i].device == query ==> DeviceLine(lines, query) == table[i].Line()
  {
    if table != [] {
      var rest := table[1..];
      assert forall i :: 1 <= i < |table| ==> table[i] == rest[i - 1];
      assert forall i :: 0 <= i < |rest| ==> rest[i] == table[i + 1];
      assert lines[1..] == Lines(rest);
      LineOfEntry(table[0], query);
      LookupIn(rest, lines[1..], query);
    }
  }

  lemma FileLines(table: seq<Entry>)
    requires ValidTable(table) && table != []
    ensures Split(File(table), '\n') == Lines(table)
  {
    forall i | 0 <= i < |table|
      ensures '\n' !in Lines(table)[i]
    {
      LineOfEntry(table[i], table[i].device);
    }
    SplitJoin(Lines(table), '\n');
  }

  /**
    The reader accepts an io.max file exactly when the device is in it and every recognised wanted
    parameter has the wanted value on that device's line.
  */
  lemma AcceptedIff(table: seq<Entry>, device: string, wants: map<string, string>)
    requires ValidTable(table) && Word(device)
    ensures Accepted(File(table), device, wants) <==>
            exists i :: 0 <= i < |table| && table[i].device == device && Meets(LimitMap(table[i].limits), wants)
  {
    var lines := Split(File(table), '\n');
    if table == [] {
      assert lines == [""];
      assert DeviceLine(lines, device) == "";
    } else {
      FileLines(table);
      LookupIn(table, lines, device);
      forall i | 0 <= i < |table|
        ensures LineRead(table[i])
      {
        LineOfEntry(table[i], device);
      }
    }
  }

  ghost predicate LineRead(e: Entry) {
    e.Line() != "" && |Fields(e.Line())| > 0 && Limits(Fields(e.Line())[1..]) == LimitMap(e.limits)
  }

  // ---------------------------------------------------------------- the driver's writer

  datatype Qos = Qos(device: string, readIops: string, writeIops: string, readBps: string, writeBps: string) {
    /** formatIOMax */
    function Format(): string {
      device + " rbps=" + readBps + " wbps=" + writeBps + " riops=" + readIops + " wiops=" + writeIops
    }

    function AsEntry(): Entry {
      Entry(device, [Limit("rbps", readBps), Limit("wbps", writeBps),
                     Limit("riops", readIops), Limit("wiops", writeIops)])
    }
  }

  /** A parameter that is missing or empty means no limit. */
  function Effective(params: map<string, string>, p: string): string {
    if p in params && params[p] != "" then params[p] else "max"
  }

  /** parseCgroupQoSParams, with the device ID of applyCgroupQoSForVolume */
  function ParseQos(params: map<string, string>, device: string): Qos {
    Qos(device, Effective(params, "maxReadIops"), Effective(params, "maxWriteIops"),
        Effective(params, "maxReadBps"), Effective(params, "maxWriteBps"))
  }

  /** validateCgroupQoSParams */
  predicate Validated(params: map<string, string>) {
    forall p :: p in FIELDS ==>
      var v := Effective(params, p);
      v == "max" || (ParseInt(v, Ten).Some? && ParseInt(v, Ten).value >= 0)
  }

  lemma {:induction false} JoinSnoc(words: seq<string>, word: string, c: char)
    requires words != []
    ensures Join(words + [word], c) == Join(words, c) + [c] + word
  {
    if |words| > 1 {
      JoinSnoc(words[1..], word, c);
      assert (words + [word])[1..] == words[1..] + [word];
    }
  }

  lemma SpaceKey(line: string, spaced: string, key: string, value: string)
    requires spaced == [' '] + key
    ensures line + spaced + value == line + [' '] + (key + value)
  {
  }

  /** The driver writes a line of the format. */
  lemma FormatIsLine(q: Qos)
    ensures q.Format() == q.AsEntry().Line()
  {
    var a, b, x, y := "rbps=" + q.readBps, "wbps=" + q.writeBps, "riops=" + q.readIops, "wiops=" + q.writeIops;
    JoinSnoc([q.device], a, ' ');
    JoinSnoc([q.device] + [a], b, ' ');
    JoinSnoc([q.device] + [a] + [b], x, ' ');
    JoinSnoc([q.device] + [a] + [b] + [x], y, ' ');
    var l := q.AsEntry().limits;
    assert "rbps" + "=" == "rbps=" && "wbps" + "=" == "wbps=" && "riops" + "=" == "riops=" && "wiops" + "=" == "wiops=";
    assert l[0].Show() == a && l[1].Show() == b && l[2].Show() == x && l[3].Show() == y;
    assert q.AsEntry().Words() == [q.device] + [a] + [b] + [x] + [y];
    var s := q.device;
    SpaceKey(s, " rbps=", "rbps=", q.readBps);
    s := s + " rbps=" + q.readBps;
    SpaceKey(s, " wbps=", "wbps=", q.writeBps);
    s := s + " wbps=" + q.writeBps;
    SpaceKey(s, " riops=", "riops=", q.readIops);
    s := s + " riops=" + q.readIops;
    SpaceKey(s, " wiops=", "wiops=", q.writeIops);
  }

  lemma {:induction false} ValueHasNoSpace(s: string, base: Base)
    requires Value(s, base).Some?
    ensures forall i :: 0 <= i < |s| ==> !IsSpace(s[i])
  {
    if s != "" {
      ValueHasNoSpace(s[..|s| - 1], base);
      assert forall i :: 0 <= i < |s| - 1 ==> s[i] == s[..|s| - 1][i];
    }
  }

  lemma LimitHasNoSpace(params: map<string, string>, p: string)
    requires Validated(params) && p in FIELDS
    ensures forall i :: 0 <= i < |Effective(params, p)| ==> !IsSpace(Effective(params, p)[i])
  {
    var v := Effective(params, p);
    if v != "max" {
      if v[0] == '-' || v[0] == '+' {
        ValueHasNoSpace(v[1..], Ten);
        assert forall i :: 1 <= i < |v| ==> v[i] == v[1..][i - 1];
      } else {
        ValueHasNoSpace(v, Ten);
      }
    }
  }

  lemma LimitValid(key: string, params: map<string, string>, p: string)
    requires Validated(params) && p in FIELDS && Word(key) && '=' !in key
    ensures Limit(key, Effective(params, p)).Valid()
  {
    LimitHasNoSpace(params, p);
  }

  lemma QosEntryValid(params: map<string, string>, device: string)
    requires Validated(params) && Word(device)
    ensures ParseQos(params, device).AsEntry().Valid()
  {
    LimitValid("rbps", params, "maxReadBps");
    LimitValid("wbps", params, "maxWriteBps");
    LimitValid("riops", params, "maxReadIops");
    LimitValid("wiops", params, "maxWriteIops");
  }

  lemma QosEntryLimits(params: map<string, string>, device: string, wants: map<string, string>)
    ensures Meets(LimitMap(ParseQos(params, device).AsEntry().limits), wants) <==>
            forall p :: p in wants && p in FIELDS ==> wants[p] == Effective(params, p)
  {
    var m := LimitMap(ParseQos(params, device).AsEntry().limits);
    FourLimits(ParseQos(params, device).AsEntry().limits);
    assert forall p :: p in FIELDS ==> FIELDS[p] in m && m[FIELDS[p]] == Effective(params, p);
  }

  lemma FourLimits(l: seq<Limit>)
    requires |l| == 4 && l[0].key == "rbps" && l[1].key == "wbps" && l[2].key == "riops" && l[3].key == "wiops"
    ensures LimitMap(l) == map["rbps" := l[0].value, "wbps" := l[1].value, "riops" := l[2].value, "wiops" := l[3].value]
  {
    assert LimitMap(l[..1]) == map["rbps" := l[0].value];
    assert l[..2][..1] == l[..1] && l[..3][..2] == l[..2] && l[..4] == l;
    assert LimitMap(l[..2]) == map["rbps" := l[0].value, "wbps" := l[1].value];
    assert LimitMap(l[..3]) == map["rbps" := l[0].value, "wbps" := l[1].value, "riops" := l[2].value];
  }

  /** A line can be added anywhere in a table in which its device has none. */
  lemma TableWith(e: Entry, before: seq<Entry>, after: seq<Entry>)
    requires e.Valid() && ValidTable(before + after)
    requires forall i :: 0 <= i < |before + after| ==> (before + after)[i].device != e.device
    ensures ValidTable(before + [e] + after)
  {
    var table, others := before + [e] + after, before + after;
    assert forall i :: 0 <= i < |before| ==> table[i] == others[i];
    assert forall i :: |before| < i < |table| ==> table[i] == others[i - 1];
    forall i, j | 0 <= i < j < |table|
      ensures table[i].device != table[j].device
    {
      var x, y := if i < |before| then i else i - 1, if j < |before| then j else j - 1;
      assert i != |before| ==> table[i] == others[x];
      assert j != |before| ==> table[j] == others[y];
    }
  }

  /**
    End to end: whatever other devices the file lists, the check that finds the device through the
    hexadecimal output of stat passes exactly when the driver was given the wanted limits.
  */
  lemma DriverAndReaderAgree(params: map<string, string>, major: nat, minor: nat,
                             before: seq<Entry>, after: seq<Entry>, wants: map<string, string>)
    requires Validated(params) && Int64(major) && Int64(minor) && ValidTable(before + after)
    requires forall i :: 0 <= i < |before + after| ==> (before + after)[i].device != DeviceId(major, minor)
    ensures var table := before + [ParseQos(params, DeviceId(major, minor)).AsEntry()] + after;
            var id := DeviceIdFromStat(Render(major, Sixteen) + ":" + Render(minor, Sixteen) + "\n");
            && id.Some?
            && Lines(table)[|before|] == ParseQos(params, id.value).Format()
            && (Accepted(File(table), id.value, wants) <==>
                forall p :: p in wants && p in FIELDS ==> wants[p] == Effective(params, p))
  {
    var device := DeviceId(major, minor);
    var entry := ParseQos(params, device).AsEntry();
    var table := before + [entry] + after;
    StatRoundTrip(major, minor);
    DeviceIdIsWord(major, minor);
    QosEntryValid(params, device);
    TableWith(entry, before, after);
    FormatIsLine(ParseQos(params, device));
    QosEntryLimits(params, device, wants);
    AcceptedIff(table, device, wants);
    assert table[|before|] == entry;
    assert forall i :: 0 <= i < |table| && table[i].device == device ==> i == |before|;
  }

  // ---------------------------------------------------------------- the same in terms of the parameters

  /** The value that a parameter stands for: an absent or empty one for no limit. */
  lemma DriverLimits(params: map<string, string>, major: nat, minor: nat,
                     before: seq<Entry>, after: seq<Entry>, p: string, v: string)
    requires Validated(params) && Int64(major) && Int64(minor) && ValidTable(before + after)
    requires forall i :: 0 <= i < |before + after| ==> (before + after)[i].device != DeviceId(major, minor)
    requires p in {"maxReadIops", "maxWriteIops", "maxReadBps", "maxWriteBps"}
    ensures var table := before + [ParseQos(params, DeviceId(major, minor)).AsEntry()] + after;
            Accepted(File(table), DeviceId(major, minor), map[p := v]) <==>
            v == if p in params && params[p] != "" then params[p] else "max"
  {
    StatRoundTrip(major, minor);
    DriverAndReaderAgree(params, major, minor, before, after, map[p := v]);
  }

  /** The line the driver writes, field by field. */
  lemma DriverText(params: map<string, string>, device: string)
    ensures var limit := (p: string) => if p in params && params[p] != "" then params[p] else "max";
            ParseQos(params, device).Format() ==
            device + " rbps=" + limit("maxReadBps") + " wbps=" + limit("maxWriteBps") +
            " riops=" + limit("maxReadIops") + " wiops=" + limit("maxWriteIops")
  {
    var limit := (p: string) => if p in params && params[p] != "" then params[p] else "max";
    assert limit("maxReadBps") == Effective(params, "maxReadBps");
    assert limit("maxWriteBps") == Effective(params, "maxWriteBps");
    assert limit("maxReadIops") == Effective(params, "maxReadIops");
    assert limit("maxWriteIops") == Effective(params, "maxWriteIops");
  }

  /** "max" or a number that is not negative. */
  predicate GoodLimit(v: string) {
    v == "max" || (ParseInt(v, Ten).Some? && ParseInt(v, Ten).value >= 0)
  }

  /** Validation passes exactly if every limit that is given and not empty is a good one. */
  lemma ValidatedIff(params: map<string, string>)
    ensures Validated(params) <==>
            && ("maxReadIops" in params && params["maxReadIops"] != "" ==> GoodLimit(params["maxReadIops"]))
            && ("maxWriteIops" in params && params["maxWriteIops"] != "" ==> GoodLimit(params["maxWriteIops"]))
            && ("maxReadBps" in params && params["maxReadBps"] != "" ==> GoodLimit(params["maxReadBps"]))
            && ("maxWriteBps" in params && params["maxWriteBps"] != "" ==> GoodLimit(params["maxWriteBps"]))
  {
    OneValidated(params, "maxReadIops");
    OneValidated(params, "maxWriteIops");
    OneValidated(params, "maxReadBps");
    OneValidated(params, "maxWriteBps");
    assert Validated(params) <==> forall p :: p in FIELDS ==> GoodLimit(Effective(params, p));
    assert forall p :: p in FIELDS <==>
      p == "maxReadIops" || p == "maxWriteIops" || p == "maxReadBps" || p == "maxWriteBps";
  }

  lemma OneValidated(params: map<string, string>, p: string)
    ensures GoodLimit(Effective(params, p)) <==> (p in params && params[p] != "" ==> GoodLimit(params[p]))
  {
  }

  // ---------------------------------------------------------------- other input

  lemma SplitAtEquals(word: string, key: string)
    requires '=' !in key
    ensures HasPrefix(word, key + "=") <==> |SplitN(word, '=', 2)| == 2 && SplitN(word, '=', 2)[0] == key
    ensures HasPrefix(word, key + "=") ==> SplitN(word, '=', 2)[1] == word[|key| + 1..]
  {
    if HasPrefix(word, key + "=") {
      var rest := word[|key| + 1..];
      assert word == key + ['='] + rest;
      SplitNCut(key, '=', rest, 2);
    } else if '=' in word {
      var i := FirstChar(word, '=');
      assert word[..i + 1] == word[..i] + "=";
    }
  }

  /** White space around a line makes no difference. */
  lemma PaddedLine(a: string, line: string, b: string, rest: seq<string>, device: string)
    requires (forall i :: 0 <= i < |a| ==> IsSpace(a[i])) && (forall i :: 0 <= i < |b| ==> IsSpace(b[i]))
    requires line != "" && !IsSpace(line[0]) && !IsSpace(line[|line| - 1]) && IsLineOf(line, device)
    ensures DeviceLine([a + line + b] + rest, device) == line
  {
    TrimSpaceIs(a, line, b);
  }

  /** The four parameters are looked up under their names in the file, and any other is ignored. */
  lemma MeetsIff(actual: map<string, string>, p: string, v: string)
    ensures Meets(actual, map[p := v]) <==>
            if p == "maxReadIops" then "riops" in actual && actual["riops"] == v
            else if p == "maxWriteIops" then "wiops" in actual && actual["wiops"] == v
            else if p == "maxReadBps" then "rbps" in actual && actual["rbps"] == v
            else if p == "maxWriteBps" then "wbps" in actual && actual["wbps"] == v
            else true
  {
    var wants := map[p := v];
    assert p in wants && forall x :: x in wants ==> x == p;
    assert Meets(actual, wants) <==> (p in FIELDS ==> FIELDS[p] in actual && actual[FIELDS[p]] == v);
  }

  /** Of several values for a field the last one counts, and a word without "=" counts for nothing. */
  lemma {:induction false} LastLimitCounts(words: seq<string>, key: string)
    requires '=' !in key
    ensures key in Limits(words) <==> exists i :: 0 <= i < |words| && HasPrefix(words[i], key + "=")
    ensures forall i :: 0 <= i < |words| && HasPrefix(words[i], key + "=") &&
                        (forall j :: i < j < |words| ==> !HasPrefix(words[j], key + "=")) ==>
              Limits(words)[key] == words[i][|key| + 1..]
  {
    if words != [] {
      var n := |words| - 1;
      LastLimitCounts(words[..n], key);
      SplitAtEquals(words[n], key);
      assert forall i :: 0 <= i < n ==> words[i] == words[..n][i];
    }
  }

  lemma {:induction false} NoLineAfter(lines: seq<string>, device: string)
    ensures DeviceLine(lines + [""], device) == DeviceLine(lines, device)
  {
    if lines != [] {
      NoLineAfter(lines[1..], device);
      assert (lines + [""])[1..] == lines[1..] + [""];
    }
  }

  /** The newline at the end of a file makes no difference. */
  lemma TrailingNewline(content: string, device: string, wants: map<string, string>)
    ensures Accepted(content + "\n", device, wants) <==> Accepted(content, device, wants)
  {
    assert content + "\n" == content + ['\n'] + "";
    SplitConcat(content, '\n', "");
    NoLineAfter(Split(content, '\n'), device);
  }

  /** Device numbers that are not two hexadecimal numbers with a colon between them are refused. */
  lemma StatShape(output: string, a: string, b: string)
    requires ':' !in a
    ensures TrimSpace(output) == a + ":" + b ==>
              DeviceIdFromStat(output) ==
              if ParseInt(a, Sixteen).Some? && ParseInt(b, Sixteen).Some?
              then Some(Decimal(ParseInt(a, Sixteen).value) + ":" + Decimal(ParseInt(b, Sixteen).value)) else None
    ensures ':' !in TrimSpace(output) ==> DeviceIdFromStat(output) == None
  {
    if TrimSpace(output) == a + ":" + b {
      assert a + ":" + b == a + [':'] + b;
      SplitNCut(a, ':', b, 2);
    }
  }
}
