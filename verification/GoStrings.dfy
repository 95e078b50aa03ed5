/** The functions of Go's strings and strconv packages that the parsers use, and their laws. */
module GoStrings {

  // ---------------------------------------------------------------- substrings

  ghost predicate At(s: string, sub: string, i: int) {
    0 <= i <= |s| - |sub| && s[i..i + |sub|] == sub
  }

  lemma SliceOfSlice(s: string, i: int, j: int, a: int, b: int)
    requires 0 <= i <= j <= |s| && 0 <= a <= b <= j - i
    ensures s[i..j][a..b] == s[i + a..i + b]
  {
    var x, y := s[i..j][a..b], s[i + a..i + b];
    assert |x| == |y| && forall k :: 0 <= k < |x| ==> x[k] == s[i + a + k] == y[k];
  }

  lemma AtShift(s: string, sub: string, j: int)
    requires 1 <= j <= |s|
    ensures At(s, sub, j) <==> At(s[1..], sub, j - 1)
  {
  }

  /** strings.Index: where sub occurs first, or -1. */
  function Index(s: string, sub: string): (i: int)
    ensures i == -1 || At(s, sub, i)
    ensures forall j :: 0 <= j < (if i == -1 then |s| + 1 else i) ==> !At(s, sub, j)
  {
    if |s| < |sub| then -1
    else if s[..|sub|] == sub then assert s[0..0 + |sub|] == sub; 0
    else if s == [] then -1
    else
      var i := Index(s[1..], sub);
      assert forall j :: 1 <= j <= |s| ==> (At(s, sub, j) <==> At(s[1..], sub, j - 1)) by {
        forall j | 1 <= j <= |s| ensures At(s, sub, j) <==> At(s[1..], sub, j - 1) { AtShift(s, sub, j); }
      }
      if i == -1 then -1 else i + 1
  }

  lemma IndexIs(s: string, sub: string, i: int)
    requires At(s, sub, i) && forall j :: 0 <= j < i ==> !At(s, sub, j)
    ensures Index(s, sub) == i
  {
  }

  predicate Contains(s: string, sub: string) {
    Index(s, sub) != -1
  }

  lemma ContainsIff(s: string, sub: string)
    ensures Contains(s, sub) <==> exists a, b :: s == a + sub + b
  {
    if Contains(s, sub) {
      var i := Index(s, sub);
      assert s == s[..i] + sub + s[i + |sub|..];
    }
    if a, b :| s == a + sub + b {
      assert At(s, sub, |a|);
    }
  }

  predicate HasPrefix(s: string, p: string) {
    |p| <= |s| && s[..|p|] == p
  }

  // ---------------------------------------------------------------- splitting on one character

  /** Put a character in front of the first part. */
  function Push(x: char, r: seq<string>): (r': seq<string>)
    requires |r| > 0
    ensures |r'| == |r| && r'[0] == [x] + r[0] && r'[1..] == r[1..]
  {
    [[x] + r[0]] + r[1..]
  }

  /** strings.Split with a one-character separator. */
  function Split(s: string, c: char): (r: seq<string>)
    ensures |r| > 0
  {
    if s == [] then [""]
    else if s[0] == c then [""] + Split(s[1..], c)
    else Push(s[0], Split(s[1..], c))
  }

  lemma {:induction false} SplitConcat(a: string, c: char, b: string)
    ensures Split(a + [c] + b, c) == Split(a, c) + Split(b, c)
  {
    if a == [] {
      assert a + [c] + b == [c] + b;
      SplitCons(c, b, c);
    } else {
      var x, rest := a[0], a[1..];
      SplitConcat(rest, c, b);
      assert a == [x] + rest && a + [c] + b == [x] + (rest + [c] + b);
      ConsConcat(x == c, x, Split(rest, c), Split(b, c));
      SplitCons(x, rest, c);
      SplitCons(x, rest + [c] + b, c);
    }
  }

  lemma SplitCons(x: char, s: string, c: char)
    ensures Split([x] + s, c) == if x == c then [""] + Split(s, c) else Push(x, Split(s, c))
  {
    assert ([x] + s)[1..] == s;
  }

  lemma ConsConcat(cut: bool, x: char, r: seq<string>, tail: seq<string>)
    requires |r| > 0
    ensures (if cut then [""] + (r + tail) else Push(x, r + tail)) == (if cut then [""] + r else Push(x, r)) + tail
  {
  }

  lemma {:induction false} SplitNone(s: string, c: char)
    requires c !in s
    ensures Split(s, c) == [s]
  {
    if s != [] {
      SplitNone(s[1..], c);
      assert s == [s[0]] + s[1..];
    }
  }

  /** No part contains the separator. */
  lemma {:induction false} SplitParts(s: string, c: char, i: nat)
    requires i < |Split(s, c)|
    ensures c !in Split(s, c)[i]
  {
    if s != [] {
      var r := Split(s[1..], c);
      if s[0] == c {
        if i > 0 { SplitParts(s[1..], c, i - 1); }
      } else {
        SplitParts(s[1..], c, i);
      }
    }
  }

  function Join(parts: seq<string>, c: char): string
    requires |parts| > 0
  {
    if |parts| == 1 then parts[0] else parts[0] + [c] + Join(parts[1..], c)
  }

  lemma {:induction false} SplitJoin(parts: seq<string>, c: char)
    requires |parts| > 0 && forall i :: 0 <= i < |parts| ==> c !in parts[i]
    ensures Split(Join(parts, c), c) == parts
  {
    SplitNone(parts[0], c);
    if |parts| > 1 {
      SplitJoin(parts[1..], c);
      SplitConcat(parts[0], c, Join(parts[1..], c));
      assert parts == [parts[0]] + parts[1..];
    }
  }

  /** Joining what was split gives the text back: with SplitParts, this determines Split. */
  lemma {:induction false} JoinSplit(s: string, c: char)
    ensures Join(Split(s, c), c) == s
  {
    if s != [] {
      var r := Split(s[1..], c);
      JoinSplit(s[1..], c);
      assert s == [s[0]] + s[1..];
      if s[0] == c {
        assert ([""] + r)[1..] == r;
      } else {
        assert Push(s[0], r)[1..] == r[1..];
      }
    }
  }

  /** strings.SplitN with a one-character separator and a positive limit. */
  function SplitN(s: string, c: char, n: nat): (r: seq<string>)
    requires n > 0
    ensures 0 < |r| <= n
    decreases n
  {
    if n == 1 || c !in s then [s]
    else
      var i := FirstChar(s, c);
      [s[..i]] + SplitN(s[i + 1..], c, n - 1)
  }

  function FirstChar(s: string, c: char): (i: nat)
    requires c in s
    ensures i < |s| && s[i] == c && c !in s[..i]
  {
    if s[0] == c then 0
    else
      var i := 1 + FirstChar(s[1..], c);
      assert s[..i] == [s[0]] + s[1..][..i - 1];
      i
  }

  lemma SplitNCut(a: string, c: char, b: string, n: nat)
    requires c !in a && n > 1
    ensures SplitN(a + [c] + b, c, n) == [a] + SplitN(b, c, n - 1)
  {
    var s := a + [c] + b;
    assert s[|a|] == c && forall j :: 0 <= j < |a| ==> s[j] == a[j] != c;
    var i := FirstChar(s, c);
    assert forall j :: 0 <= j < i ==> s[j] == s[..i][j] != c;
    assert s[..i] == a && s[i + 1..] == b;
  }

  lemma SplitNWhole(s: string, c: char, n: nat)
    requires n == 1 || (n > 0 && c !in s)
    ensures SplitN(s, c, n) == [s]
  {
  }

  // ---------------------------------------------------------------- white space

  /** unicode.IsSpace */
  predicate IsSpace(c: char) {
    || c == ' ' || '\t' <= c <= '\r' || c == '\U{0085}' || c == '\U{00A0}' || c == '\U{1680}'
    || '\U{2000}' <= c <= '\U{200A}' || c == '\U{2028}' || c == '\U{2029}' || c == '\U{202F}'
    || c == '\U{205F}' || c == '\U{3000}'
  }

  /** A non-empty run of characters none of which is white space. */
  ghost predicate Word(s: string) {
    s != "" && forall i :: 0 <= i < |s| ==> !IsSpace(s[i])
  }

  function TrimLeft(s: string): string {
    if s != "" && IsSpace(s[0]) then TrimLeft(s[1..]) else s
  }

  function TrimRight(s: string): string {
    if s != "" && IsSpace(s[|s| - 1]) then TrimRight(s[..|s| - 1]) else s
  }

  function TrimSpace(s: string): string {
    TrimRight(TrimLeft(s))
  }

  lemma {:induction false} TrimLeftSpace(a: string, s: string)
    requires (forall i :: 0 <= i < |a| ==> IsSpace(a[i])) && (s == "" || !IsSpace(s[0]))
    ensures TrimLeft(a + s) == s
  {
    if a == "" {
      assert a + s == s;
    } else {
      TrimLeftSpace(a[1..], s);
      assert (a + s)[1..] == a[1..] + s;
    }
  }

  lemma {:induction false} TrimRightSpace(s: string, b: string)
    requires (forall i :: 0 <= i < |b| ==> IsSpace(b[i])) && (s == "" || !IsSpace(s[|s| - 1]))
    ensures TrimRight(s + b) == s
  {
    if b == "" {
      assert s + b == s;
    } else {
      var n := |b| - 1;
      TrimRightSpace(s, b[..n]);
      assert (s + b)[..|s + b| - 1] == s + b[..n];
    }
  }

  /** The white space at both ends goes, and nothing else. */
  lemma TrimSpaceIs(a: string, s: string, b: string)
    requires (forall i :: 0 <= i < |a| ==> IsSpace(a[i])) && (forall i :: 0 <= i < |b| ==> IsSpace(b[i]))
    requires s != "" && !IsSpace(s[0]) && !IsSpace(s[|s| - 1])
    ensures TrimSpace(a + s + b) == s
  {
    assert a + s + b == a + (s + b);
    TrimLeftSpace(a, s + b);
    TrimRightSpace(s, b);
  }

  function WordLength(s: string): (n: nat)
    ensures n <= |s| && (forall i :: 0 <= i < n ==> !IsSpace(s[i])) && (n < |s| ==> IsSpace(s[n]))
  {
    if s == "" || IsSpace(s[0]) then 0 else 1 + WordLength(s[1..])
  }

  /** strings.Fields */
  function Fields(s: string): (r: seq<string>)
    ensures forall i :: 0 <= i < |r| ==> Word(r[i])
    decreases |s|
  {
    if s == "" then []
    else if IsSpace(s[0]) then Fields(s[1..])
    else
      var n := WordLength(s);
      [s[..n]] + Fields(s[n..])
  }

  lemma FieldsSkip(c: char, s: string)
    requires IsSpace(c)
    ensures Fields([c] + s) == Fields(s) && Fields("") == []
  {
    assert ([c] + s)[1..] == s;
  }

  lemma FieldsOfWord(w: string)
    requires Word(w)
    ensures Fields(w) == [w]
  {
    assert WordLength(w) == |w|;
    assert w[..|w|] == w && w[|w|..] == "";
  }

  lemma FieldsCut(w: string, c: char, rest: string)
    requires Word(w) && IsSpace(c)
    ensures Fields(w + [c] + rest) == [w] + Fields(rest)
  {
    var s := w + [c] + rest;
    var n := WordLength(s);
    assert s[|w|] == c && forall j :: 0 <= j < |w| ==> s[j] == w[j] && !IsSpace(s[j]);
    assert n == |w|;
    assert s[..n] == w && s[n..] == [c] + rest && s[n..][1..] == rest;
  }

  lemma {:induction false} FieldsJoin(words: seq<string>, c: char)
    requires |words| > 0 && IsSpace(c) && forall i :: 0 <= i < |words| ==> Word(words[i])
    ensures Fields(Join(words, c)) == words
  {
    if |words| == 1 {
      FieldsOfWord(words[0]);
    } else {
      FieldsJoin(words[1..], c);
      FieldsCut(words[0], c, Join(words[1..], c));
      assert words == [words[0]] + words[1..];
    }
  }

  lemma {:induction false} JoinEnds(words: seq<string>, c: char)
    requires |words| > 0 && forall i :: 0 <= i < |words| ==> Word(words[i])
    ensures var s := Join(words, c); s != "" && !IsSpace(s[0]) && !IsSpace(s[|s| - 1])
  {
    if |words| > 1 {
      JoinEnds(words[1..], c);
    }
  }

  /** Trimming leaves a line of words as it is. */
  lemma TrimJoin(words: seq<string>, c: char)
    requires |words| > 0 && forall i :: 0 <= i < |words| ==> Word(words[i])
    ensures TrimSpace(Join(words, c)) == Join(words, c)
  {
    JoinEnds(words, c);
  }

  lemma {:induction false} JoinLacks(parts: seq<string>, c: char, x: char)
    requires |parts| > 0 && x != c && forall i :: 0 <= i < |parts| ==> x !in parts[i]
    ensures x !in Join(parts, c)
  {
    if |parts| > 1 {
      JoinLacks(parts[1..], c, x);
    }
  }
}
