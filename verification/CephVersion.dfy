/** The Ceph version reported by the cluster: parsing, printing and ordering (e2e/ceph.go). */
module CephVersion {
  import opened GoStrings
  import opened Numerals

  datatype Version = Version(major: int, minor: int, patch: int, build: string, release: string)

  // ---------------------------------------------------------------- strconv.Atoi on bad input

  /** The digits that Atoi reads before it meets a character that is not a digit. */
  function DigitPrefix(s: string): (p: string)
    ensures Value(p, Ten).Some?
  {
    if s == "" then ""
    else
      var p := DigitPrefix(s[..|s| - 1]);
      if p == s[..|s| - 1] && DigitValue(s[|s| - 1]) < 10 then
        assert s[..|s| - 1] == p;
        s
      else p
  }

  /** What Atoi returns next to its error: 0 for a malformed number, the nearest int64 for one out of range. */
  function AtoiLeftover(s: string): int {
    if s == "" then 0
    else
      var negative, digits := s[0] == '-', if s[0] == '-' || s[0] == '+' then s[1..] else s;
      var p := DigitPrefix(digits);
      if Value(p, Ten).value < 0x1_0000_0000_0000_0000 && (p != digits || digits == "") then 0
      else if negative then -0x8000_0000_0000_0000
      else 0x7FFF_FFFF_FFFF_FFFF
  }

  function Atoi(s: string): (int, bool) {
    var n := ParseInt(s, Ten);
    if n.Some? then (n.value, true) else (AtoiLeftover(s), false)
  }

  // ---------------------------------------------------------------- parsing

  function TrimQuotesLeft(s: string): string {
    if s != "" && s[0] == '"' then TrimQuotesLeft(s[1..]) else s
  }

  function TrimQuotesRight(s: string): string {
    if s != "" && s[|s| - 1] == '"' then TrimQuotesRight(s[..|s| - 1]) else s
  }

  /** strings.Trim(s, "\"") */
  function TrimQuotes(s: string): string {
    TrimQuotesRight(TrimQuotesLeft(s))
  }

  /** What parsing does to a receiver, field by field: an error leaves it with the fields read so far. */
  function Parsed(v: Version, data: string): (Version, bool) {
    var parts := Split(TrimQuotes(data), ' ');
    if |parts| < 5 || parts[0] != "ceph" || parts[1] != "version" then (v, false)
    else ParsedNumbers(v, parts[2], parts[4])
  }

  function ParsedNumbers(v: Version, text: string, release: string): (Version, bool) {
    var numbers := SplitN(text, '.', 3);
    if |numbers| != 3 then (v, false)
    else
      var (major, majorOk) := Atoi(numbers[0]);
      var v1 := v.(major := major);
      if !majorOk then (v1, false)
      else
        var (minor, minorOk) := Atoi(numbers[1]);
        var v2 := v1.(minor := minor);
        if !minorOk then (v2, false) else ParsedPatch(v2, numbers[2], release)
  }

  function ParsedPatch(v: Version, text: string, release: string): (Version, bool) {
    var parts := SplitN(text, '-', 2);
    var (patch, ok) := Atoi(parts[0]);
    var v' := v.(patch := patch);
    if !ok then (v', false)
    else (v'.(build := if |parts| == 2 then parts[1] else v.build, release := release), true)
  }

  /** The receiver of UnmarshalJSON. */
  class Receiver {
    var major: int
    var minor: int
    var patch: int
    var build: string
    var release: string

    ghost function Value(): Version
      reads this
    {
      Version(major, minor, patch, build, release)
    }

    constructor ()
      ensures Value() == Version(0, 0, 0, "", "")
    {
      major, minor, patch, build, release := 0, 0, 0, "", "";
    }

    method UnmarshalJson(data: string) returns (ok: bool)
      modifies this
      ensures (Value(), ok) == Parsed(old(Value()), data)
    {
      var parts := Split(TrimQuotes(data), ' ');
      if |parts| < 5 {
        return false;
      }
      if parts[0] != "ceph" || parts[1] != "version" {
        return false;
      }
      var versionParts := SplitN(parts[2], '.', 3);
      if |versionParts| != 3 {
        return false;
      }
      major := Atoi(versionParts[0]).0;
      if !Atoi(versionParts[0]).1 {
        return false;
      }
      minor := Atoi(versionParts[1]).0;
      if !Atoi(versionParts[1]).1 {
        return false;
      }
      var patchVersions := SplitN(versionParts[2], '-', 2);
      patch := Atoi(patchVersions[0]).0;
      if !Atoi(patchVersions[0]).1 {
        return false;
      }
      if |patchVersions| == 2 {
        build := patchVersions[1];
      }
      release := parts[4];
      return true;
    }
  }

  // ---------------------------------------------------------------- what Ceph prints

  function Suffix(build: string): string {
    if build == "" then "" else "-" + build
  }

  function Number(v: Version): string {
    Decimal(v.major) + "." + Decimal(v.minor) + "." + Decimal(v.patch)
  }

  /** "ceph version 19.2.1-292.el9cp (ba02d58) squid (stable)", as a JSON string */
  function Report(v: Version, hash: string, extra: seq<string>): string {
    "\"" + Join(Words(v, hash, extra), ' ') + "\""
  }

  function Words(v: Version, hash: string, extra: seq<string>): seq<string> {
    ["ceph", "version", Number(v) + Suffix(v.build), "(" + hash + ")", v.release] + extra
  }

  ghost predicate Plain(s: string) {
    ' ' !in s && '"' !in s
  }

  ghost predicate Reportable(v: Version, hash: string, extra: seq<string>) {
    && Int64(v.major) && Int64(v.minor) && Int64(v.patch) && v.patch >= 0
    && Plain(v.build) && Plain(v.release) && Plain(hash) && v.release != ""
    && forall i :: 0 <= i < |extra| ==> Plain(extra[i])
  }

  lemma DecimalPlain(n: int)
    ensures Plain(Decimal(n)) && '.' !in Decimal(n) && (n >= 0 ==> '-' !in Decimal(n))
  {
    DecimalChars(n);
  }

  lemma ThreeParts(a: string, b: string, c: string, d: string)
    requires '.' !in a && '.' !in b
    ensures SplitN(a + "." + b + "." + c + d, '.', 3) == [a, b, c + d]
  {
    assert a + "." + b + "." + c + d == a + ['.'] + (b + ['.'] + (c + d));
    SplitNCut(a, '.', b + ['.'] + (c + d), 3);
    SplitNCut(b, '.', c + d, 2);
  }

  /** The build may hold dots and dashes: only the first two dots and the first dash after them separate. */
  lemma NumbersRecovered(r: Version, v: Version)
    requires Int64(v.major) && Int64(v.minor) && Int64(v.patch) && v.patch >= 0
    ensures ParsedNumbers(r, Number(v) + Suffix(v.build), v.release) ==
            (v.(build := if v.build == "" then r.build else v.build), true)
  {
    DecimalPlain(v.major);
    DecimalPlain(v.minor);
    ThreeParts(Decimal(v.major), Decimal(v.minor), Decimal(v.patch), Suffix(v.build));
    ParseDecimal(v.major);
    ParseDecimal(v.minor);
    PatchRecovered(r.(major := v.major, minor := v.minor), v);
  }

  lemma PatchRecovered(r: Version, v: Version)
    requires Int64(v.patch) && v.patch >= 0
    ensures ParsedPatch(r, Decimal(v.patch) + Suffix(v.build), v.release) ==
            (r.(patch := v.patch, build := if v.build == "" then r.build else v.build, release := v.release), true)
  {
    DecimalPlain(v.patch);
    ParseDecimal(v.patch);
    if v.build != "" {
      assert Decimal(v.patch) + Suffix(v.build) == Decimal(v.patch) + ['-'] + v.build;
      SplitNCut(Decimal(v.patch), '-', v.build, 2);
    } else {
      assert Decimal(v.patch) + Suffix(v.build) == Decimal(v.patch);
    }
  }

  lemma TrimQuoted(s: string)
    requires '"' !in s
    ensures TrimQuotes("\"" + s + "\"") == s
  {
    var q := "\"" + s + "\"";
    assert q[1..] == s + "\"" && (s + "\"")[..|s|] == s;
    if s == "" {
      assert TrimQuotesLeft(q) == TrimQuotesLeft("\"") == "";
    } else {
      assert TrimQuotesLeft(q) == s + "\"";
      assert TrimQuotesRight(s + "\"") == TrimQuotesRight(s);
    }
  }

  lemma WordsArePlain(v: Version, hash: string, extra: seq<string>)
    requires Reportable(v, hash, extra)
    ensures forall i :: 0 <= i < |Words(v, hash, extra)| ==> Plain(Words(v, hash, extra)[i])
  {
    DecimalPlain(v.major);
    DecimalPlain(v.minor);
    DecimalPlain(v.patch);
    assert Plain(Number(v) + Suffix(v.build)) && Plain("(" + hash + ")");
  }

  lemma ReportSplits(v: Version, hash: string, extra: seq<string>)
    requires Reportable(v, hash, extra)
    ensures Split(TrimQuotes(Report(v, hash, extra)), ' ') == Words(v, hash, extra)
  {
    var words := Words(v, hash, extra);
    WordsArePlain(v, hash, extra);
    JoinLacks(words, ' ', '"');
    TrimQuoted(Join(words, ' '));
    SplitJoin(words, ' ');
  }

  /** Parsing what Ceph prints recovers every field, except that a missing build leaves the receiver's build. */
  lemma ReportParsed(r: Version, v: Version, hash: string, extra: seq<string>)
    requires Reportable(v, hash, extra)
    ensures Parsed(r, Report(v, hash, extra)) == (v.(build := if v.build == "" then r.build else v.build), true)
  {
    ReportSplits(v, hash, extra);
    ParsedWords(r, v, Report(v, hash, extra), hash, extra);
    NumbersRecovered(r, v);
  }

  lemma ParsedWords(r: Version, v: Version, data: string, hash: string, extra: seq<string>)
    requires Split(TrimQuotes(data), ' ') == Words(v, hash, extra)
    ensures Parsed(r, data) == ParsedNumbers(r, Number(v) + Suffix(v.build), v.release)
  {
  }

  /** Every field is recovered exactly when the version has a build or the receiver had none. */
  lemma FreshReceiverRecoversAll(r: Version, v: Version, hash: string, extra: seq<string>)
    requires Reportable(v, hash, extra)
    ensures Parsed(r, Report(v, hash, extra)) == (v, true) <==> v.build != "" || r.build == ""
  {
    ReportParsed(r, v, hash, extra);
  }

  // ---------------------------------------------------------------- printing and ordering

  function String(v: Version): string {
    Number(v) + Suffix(v.build) + " (" + v.release + ")"
  }

  predicate GreaterEquals(a: Version, b: Version) {
    if a.major != b.major then a.major > b.major
    else if a.minor != b.minor then a.minor > b.minor
    else a.patch >= b.patch
  }

  lemma NumberParts(v: Version)
    ensures SplitN(Number(v), '.', 3) == [Decimal(v.major), Decimal(v.minor), Decimal(v.patch)]
  {
    DecimalPlain(v.major);
    DecimalPlain(v.minor);
    ThreeParts(Decimal(v.major), Decimal(v.minor), Decimal(v.patch), "");
    assert Number(v) + "" == Number(v) && Decimal(v.patch) + "" == Decimal(v.patch);
  }

  /** Two versions are each at least the other exactly when String prints the same number for both. */
  lemma EquivalentIffSameNumber(a: Version, b: Version)
    ensures GreaterEquals(a, b) && GreaterEquals(b, a) <==> Number(a) == Number(b)
  {
    if Number(a) == Number(b) {
      NumberParts(a);
      NumberParts(b);
      var x, y := SplitN(Number(a), '.', 3), SplitN(Number(b), '.', 3);
      assert x[0] == y[0] && x[1] == y[1] && x[2] == y[2];
      DecimalInjective(a.major, b.major);
      DecimalInjective(a.minor, b.minor);
      DecimalInjective(a.patch, b.patch);
    }
  }

  /** String determines the version number even next to a build or a release that look like numbers. */
  lemma StringTellsNumber(a: Version, b: Version)
    requires String(a) == String(b) && a.patch >= 0 && b.patch >= 0
    ensures GreaterEquals(a, b) && GreaterEquals(b, a)
  {
    NumberOfString(a);
    NumberOfString(b);
    var x, y := SplitN(String(a), '.', 3), SplitN(String(b), '.', 3);
    assert x[0] == y[0] && x[1] == y[1] && x[2] == y[2];
    DecimalInjective(a.major, b.major);
    DecimalInjective(a.minor, b.minor);
    DigitsBefore(a);
    DigitsBefore(b);
    DecimalInjective(a.patch, b.patch);
  }

  function Rest(v: Version): string {
    Suffix(v.build) + " (" + v.release + ")"
  }

  lemma NumberOfString(v: Version)
    ensures SplitN(String(v), '.', 3) == [Decimal(v.major), Decimal(v.minor), Decimal(v.patch) + Rest(v)]
  {
    DecimalPlain(v.major);
    DecimalPlain(v.minor);
    ThreeParts(Decimal(v.major), Decimal(v.minor), Decimal(v.patch), Rest(v));
    Regroup(Number(v), Suffix(v.build), " (", v.release, ")");
  }

  lemma Regroup(a: string, b: string, c: string, d: string, e: string)
    ensures a + b + c + d + e == a + (b + c + d + e)
  {
  }

  /** The patch number ends at the first character that is not a decimal digit. */
  lemma DigitsBefore(v: Version)
    requires v.patch >= 0
    ensures DigitRun(Decimal(v.patch) + Rest(v)) == Decimal(v.patch)
  {
    DecimalDigits(v.patch);
    RunOf(Decimal(v.patch), Rest(v));
  }

  function DigitRun(s: string): string {
    if s != "" && '0' <= s[0] <= '9' then [s[0]] + DigitRun(s[1..]) else ""
  }

  lemma {:induction false} RunOf(digits: string, rest: string)
    requires forall i :: 0 <= i < |digits| ==> '0' <= digits[i] <= '9'
    requires rest != "" && !('0' <= rest[0] <= '9')
    ensures DigitRun(digits + rest) == digits
  {
    if digits != "" {
      RunOf(digits[1..], rest);
      assert (digits + rest)[1..] == digits[1..] + rest;
    } else {
      assert digits + rest == rest;
    }
  }

  lemma {:induction false} DecimalDigits(n: nat)
    ensures forall i :: 0 <= i < |Decimal(n)| ==> '0' <= Decimal(n)[i] <= '9'
  {
    if n >= 10 {
      DecimalDigits(n / 10);
      assert Decimal(n) == Decimal(n / 10) + [DigitChar(n % 10)];
    }
  }

  // ---------------------------------------------------------------- the order

  /** The newer version is at least the older one and not the other way round. */
  lemma NewerIsGreater(a: Version, b: Version)
    requires || a.major > b.major
             || (a.major == b.major && a.minor > b.minor)
             || (a.major == b.major && a.minor == b.minor && a.patch > b.patch)
    ensures GreaterEquals(a, b) && !GreaterEquals(b, a)
  {
  }

  /** It is a total order on numbers; build and release do not matter. */
  lemma TotalOrder(a: Version, b: Version, c: Version)
    ensures GreaterEquals(a, a) && (GreaterEquals(a, b) || GreaterEquals(b, a))
    ensures GreaterEquals(a, b) && GreaterEquals(b, c) ==> GreaterEquals(a, c)
    ensures GreaterEquals(a, b) <==> GreaterEquals(a.(build := c.build, release := c.release), b)
  {
  }

  // ---------------------------------------------------------------- what is refused, and an example

  /** What a text must look like to be accepted. */
  lemma AcceptedIff(r: Version, data: string)
    ensures Parsed(r, data).1 <==>
            && var words := Split(TrimQuotes(data), ' ');
            && |words| >= 5 && words[0] == "ceph" && words[1] == "version"
            && var numbers := SplitN(words[2], '.', 3);
            && |numbers| == 3 && ParseInt(numbers[0], Ten).Some? && ParseInt(numbers[1], Ten).Some?
            && ParseInt(SplitN(numbers[2], '-', 2)[0], Ten).Some?
  {
  }

  /** A text that is not about a Ceph version, or has no three numbers, leaves the receiver as it was. */
  lemma RefusedUntouched(r: Version, data: string)
    requires var words := Split(TrimQuotes(data), ' ');
             || |words| < 5 || words[0] != "ceph" || words[1] != "version" || |SplitN(words[2], '.', 3)| != 3
    ensures Parsed(r, data) == (r, false)
  {
  }

  /** The release is read last: a text that is refused never changes it, nor the build. */
  lemma RefusedKeepsRelease(r: Version, data: string)
    requires !Parsed(r, data).1
    ensures Parsed(r, data).0.release == r.release && Parsed(r, data).0.build == r.build
  {
  }

  lemma ExampleNumber()
    ensures Number(Version(19, 2, 1, "292.el9cp", "squid")) == "19.2.1"
  {
    assert Decimal(19) == "19" && Decimal(2) == "2" && Decimal(1) == "1";
  }

  lemma ExampleWords()
    ensures Words(Version(19, 2, 1, "292.el9cp", "squid"), "ba02d58", ["(stable)"]) ==
            ["ceph", "version", "19.2.1-292.el9cp", "(ba02d58)", "squid", "(stable)"]
  {
    ExampleNumber();
    assert "19.2.1" + ("-" + "292.el9cp") == "19.2.1-292.el9cp";
    assert "(" + "ba02d58" + ")" == "(ba02d58)";
  }

  /** The example in the source, word by word. */
  lemma DocumentedExample(r: Version)
    ensures var words := ["ceph", "version", "19.2.1-292.el9cp", "(ba02d58)", "squid", "(stable)"];
            Parsed(r, "\"" + Join(words, ' ') + "\"") == (Version(19, 2, 1, "292.el9cp", "squid"), true)
  {
    ExampleWords();
    ReportParsed(r, Version(19, 2, 1, "292.el9cp", "squid"), "ba02d58", ["(stable)"]);
  }

  lemma PrintedExample()
    ensures String(Version(19, 2, 1, "292.el9cp", "squid")) == "19.2.1" + "-292.el9cp" + " (squid)"
    ensures String(Version(19, 2, 1, "", "squid")) == "19.2.1" + "" + " (squid)"
  {
    ExampleNumber();
    assert Number(Version(19, 2, 1, "", "squid")) == Number(Version(19, 2, 1, "292.el9cp", "squid"));
  }

  // ---------------------------------------------------------------- quotes and malformed numbers

  lemma {:induction false} QuotesLeft(a: string, s: string)
    requires (forall i :: 0 <= i < |a| ==> a[i] == '"') && (s == "" || s[0] != '"')
    ensures TrimQuotesLeft(a + s) == s
  {
    if a == "" {
      assert a + s == s;
    } else {
      QuotesLeft(a[1..], s);
      assert (a + s)[1..] == a[1..] + s;
    }
  }

  lemma {:induction false} QuotesRight(s: string, b: string)
    requires (forall i :: 0 <= i < |b| ==> b[i] == '"') && (s == "" || s[|s| - 1] != '"')
    ensures TrimQuotesRight(s + b) == s
  {
    if b == "" {
      assert s + b == s;
    } else {
      var n := |b| - 1;
      QuotesRight(s, b[..n]);
      assert (s + b)[..|s + b| - 1] == s + b[..n];
    }
  }

  /** The quotes at both ends go, and nothing else. */
  lemma TrimQuotesIs(a: string, s: string, b: string)
    requires (forall i :: 0 <= i < |a| ==> a[i] == '"') && (forall i :: 0 <= i < |b| ==> b[i] == '"')
    requires s != "" && s[0] != '"' && s[|s| - 1] != '"'
    ensures TrimQuotes(a + s + b) == s
  {
    assert a + s + b == a + (s + b);
    QuotesLeft(a, s + b);
    QuotesRight(s, b);
  }

  lemma {:induction false} DigitPrefixIs(s: string, k: nat)
    requires k <= |s| && Value(s[..k], Ten).Some? && (k < |s| ==> DigitValue(s[k]) >= 10)
    ensures DigitPrefix(s) == s[..k]
  {
    if s != "" {
      var n := |s| - 1;
      if k <= n {
        assert s[..n][..k] == s[..k];
        DigitPrefixIs(s[..n], k);
      } else {
        assert s[..k] == s && s[..n][..n] == s[..n];
        DigitPrefixIs(s[..n], n);
      }
    }
  }

  /**
    What is left in a field whose number is refused: 0 if the digits before the first other character
    fit in 64 bits, otherwise the largest or smallest int64.
  */
  lemma LeftoverIs(s: string, digits: string, k: nat)
    requires ParseInt(s, Ten).None? && (digits == s || s == "+" + digits || s == "-" + digits)
    requires digits == "" || (digits[0] != '+' && digits[0] != '-')
    requires k <= |digits| && Value(digits[..k], Ten).Some? && (k < |digits| ==> DigitValue(digits[k]) >= 10)
    ensures !Atoi(s).1
    ensures Value(digits[..k], Ten).value < 0x1_0000_0000_0000_0000 && (k < |digits| || digits == "") ==> Atoi(s).0 == 0
    ensures Value(digits[..k], Ten).value >= 0x1_0000_0000_0000_0000 || (k == |digits| && digits != "") ==>
              Atoi(s).0 == if s[0] == '-' then -0x8000_0000_0000_0000 else 0x7FFF_FFFF_FFFF_FFFF
  {
    DigitPrefixIs(digits, k);
    assert s != digits ==> s[1..] == digits;
  }
}
