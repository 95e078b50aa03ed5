/**
  CSI identifiers of volumes and snapshots (internal/util/volid.go).  A character stands for a byte.
*/
module VolumeId {
  import opened Options
  import opened Numerals

  datatype Identifier = Identifier(location: int, version: nat, cluster: string, uuid: string) {
    predicate Typed() {
      Int64(location) && version < 0x1_0000
    }
  }

  datatype Outcome = Ok(id: Identifier) | Error | Panic

  const FIXED := 64
  const MAX_LENGTH := 128
  const UUID_LENGTH := 36

  // ---------------------------------------------------------------- encoding

  /** hex.EncodeToString of a big-endian integer of w / 2 bytes */
  function Hex(n: nat, w: nat): (s: string)
    ensures |s| == w
  {
    if w == 0 then "" else Hex(n / 16, w - 1) + [DigitChar(n % 16)]
  }

  function Uint64(n: int): nat
    requires Int64(n)
  {
    if n < 0 then n + 0x1_0000_0000_0000_0000 else n
  }

  function ToInt64(n: nat): int {
    if n >= 0x8000_0000_0000_0000 then n - 0x1_0000_0000_0000_0000 else n
  }

  function Layout(version: nat, cluster: string, location: nat, uuid: string): string {
    Hex(version, 4) + "-" + Hex(|cluster|, 4) + "-" + cluster + "-" + Hex(location, 16) + "-" + uuid
  }

  function Stored(id: Identifier): Identifier {
    id.(version := if id.version == 0 then 1 else id.version)
  }

  /** ComposeCSIID */
  function Compose(id: Identifier): Option<string>
    requires id.Typed()
  {
    if FIXED + |id.cluster| > MAX_LENGTH || |id.uuid| != UUID_LENGTH then None
    else Some(Layout(Stored(id).version, id.cluster, Uint64(id.location), id.uuid))
  }

  // ---------------------------------------------------------------- decoding

  /** Adding two uint16 values wraps around. */
  function Add16(a: nat, b: nat): nat
    requires a < 0x1_0000 && b < 0x1_0000
  {
    if a + b < 0x1_0000 then a + b else a + b - 0x1_0000
  }

  /** A Go slice expression, which panics out of range. */
  function Slice(s: string, i: nat, j: nat): Option<string> {
    if i <= j <= |s| then Some(s[i..j]) else None
  }

  /** The big-endian uint16 written in four hexadecimal digits, if they are. */
  function Field16(s: string): (r: Option<nat>)
    requires |s| == 4
    ensures r.Some? ==> r.value < 0x1_0000
  {
    Widths();
    if Value(s, Sixteen).Some? then ValueBound(s); Value(s, Sixteen) else None
  }

  /** DecomposeCSIID, whose lengths and offsets are uint16 values */
  function Decompose(s: string): Outcome {
    var left := |s| % 0x1_0000;
    if left < FIXED then Error
    else
      var version, length := Field16(s[0..4]), Field16(s[5..9]);
      if version.None? || length.None? then Error
      else if left - 10 < Add16(length.value, 1) then Error
      else
        var cluster := Slice(s, 10, Add16(10, length.value));
        if cluster.None? then Panic
        else DecomposeTail(s, left - 10 - (length.value + 1), 10 + length.value + 1, version.value, cluster.value)
  }

  /** The rest: no offset below exceeds next + left, so none wraps around. */
  function DecomposeTail(s: string, left: nat, next: nat, version: nat, cluster: string): Outcome
    requires next + left == |s| % 0x1_0000
  {
    if left < 17 then Error
    else
      var digits := Slice(s, next, next + 16);
      if digits.None? then Panic
      else
        var location := Value(digits.value, Sixteen);
        if location.None? then Error
        else if left - 17 != UUID_LENGTH then Error
        else
          var uuid := Slice(s, next + 17, next + 17 + UUID_LENGTH);
          if uuid.None? then Panic else Ok(Identifier(ToInt64(location.value), version, cluster, uuid.value))
  }

  // ---------------------------------------------------------------- hexadecimal of fixed width

  function Power16(w: nat): nat {
    if w == 0 then 1 else 16 * Power16(w - 1)
  }

  lemma {:induction false} ValueOfHex(n: nat, w: nat)
    requires n < Power16(w)
    ensures Value(Hex(n, w), Sixteen) == Some(n)
  {
    if w > 0 {
      ValueOfHex(n / 16, w - 1);
      assert Hex(n, w)[..w - 1] == Hex(n / 16, w - 1);
    }
  }

  lemma {:induction false} ValueBound(s: string)
    requires Value(s, Sixteen).Some?
    ensures Value(s, Sixteen).value < Power16(|s|)
  {
    if s != "" {
      ValueBound(s[..|s| - 1]);
    }
  }

  lemma Widths()
    ensures Power16(4) == 0x1_0000 && Power16(16) == 0x1_0000_0000_0000_0000
  {
  }

  predicate Lower(s: string) {
    forall i :: 0 <= i < |s| ==> '0' <= s[i] <= '9' || 'a' <= s[i] <= 'f'
  }

  lemma LowerSnoc(s: string, c: char)
    ensures Lower(s + [c]) <==> Lower(s) && Lower([c])
  {
    var t := s + [c];
    assert forall i :: 0 <= i < |s| ==> t[i] == s[i];
    assert t[|s|] == c == [c][0];
  }

  lemma DigitLower(c: char)
    requires DigitValue(c) < 16
    ensures DigitChar(DigitValue(c)) == c <==> Lower([c])
  {
    assert [c][0] == c;
  }

  lemma HexSnoc(s: string, v: nat, c: char)
    requires DigitValue(c) < 16
    ensures Hex(v * 16 + DigitValue(c), |s| + 1) == s + [c] <==> Hex(v, |s|) == s && DigitChar(DigitValue(c)) == c
  {
    var n, d := v * 16 + DigitValue(c), DigitValue(c);
    assert n / 16 == v && n % 16 == d;
    var x, y := Hex(v, |s|) + [DigitChar(d)], s + [c];
    assert Hex(n, |s| + 1) == x;
    assert x[..|s|] == Hex(v, |s|) && y[..|s|] == s && x[|s|] == DigitChar(d) && y[|s|] == c;
  }

  /** Reading digits and writing them again gives the same text exactly for lower case. */
  lemma {:induction false} HexOfValue(s: string)
    requires Value(s, Sixteen).Some?
    ensures Hex(Value(s, Sixteen).value, |s|) == s <==> Lower(s)
  {
    if s != "" {
      var init, c := s[..|s| - 1], s[|s| - 1];
      HexOfValue(init);
      assert s == init + [c];
      LowerSnoc(init, c);
      DigitLower(c);
      HexSnoc(init, Value(init, Sixteen).value, c);
    }
  }

  // ---------------------------------------------------------------- theorems

  lemma LayoutParts(version: nat, cluster: string, location: nat, uuid: string)
    ensures var s, c := Layout(version, cluster, location, uuid), |cluster|;
            && |s| == 28 + c + |uuid|
            && s[0..4] == Hex(version, 4) && s[5..9] == Hex(c, 4) && s[10..10 + c] == cluster
            && s[11 + c..27 + c] == Hex(location, 16) && s[28 + c..28 + c + |uuid|] == uuid
            && s[4] == s[9] == s[10 + c] == s[27 + c] == '-'
  {
  }

  /** What a text of the right shape is decoded to. */
  lemma DecomposedTo(s: string, version: nat, c: nat, location: nat)
    requires |s| == FIXED + c <= MAX_LENGTH
    requires Value(s[0..4], Sixteen) == Some(version) && Value(s[5..9], Sixteen) == Some(c)
    requires Value(s[11 + c..27 + c], Sixteen) == Some(location)
    ensures Decompose(s) == Ok(Identifier(ToInt64(location), version, s[10..10 + c], s[28 + c..64 + c]))
  {
  }

  /** What can be composed: cluster IDs of up to 64 bytes, with a UUID of 36. */
  lemma ComposedIff(id: Identifier)
    requires id.Typed()
    ensures Compose(id).Some? <==> |id.cluster| <= 64 && |id.uuid| == 36
  {
  }

  lemma LayoutValues(version: nat, cluster: string, location: nat, uuid: string)
    requires version < 0x1_0000 && |cluster| < 0x1_0000 && location < 0x1_0000_0000_0000_0000
    ensures var s, c := Layout(version, cluster, location, uuid), |cluster|;
            && Value(s[0..4], Sixteen) == Some(version)
            && Value(s[5..9], Sixteen) == Some(c)
            && Value(s[11 + c..27 + c], Sixteen) == Some(location)
  {
    LayoutParts(version, cluster, location, uuid);
    Widths();
    ValueOfHex(version, 4);
    ValueOfHex(|cluster|, 4);
    ValueOfHex(location, 16);
  }

  /** What the text looks like, piece by piece. */
  lemma ComposedText(id: Identifier)
    requires id.Typed() && Compose(id).Some?
    ensures var text, c := Compose(id).value, |id.cluster|;
            && |text| == 64 + c <= 128
            && text[4] == text[9] == text[10 + c] == text[27 + c] == '-'
            && Value(text[0..4], Sixteen) == Some(if id.version == 0 then 1 else id.version)
            && (id.version <= 1 ==> text[0..4] == "0001")
            && Value(text[5..9], Sixteen) == Some(c)
            && text[10..10 + c] == id.cluster
            && Value(text[11 + c..27 + c], Sixteen) ==
               Some(if id.location < 0 then id.location + 0x1_0000_0000_0000_0000 else id.location)
            && text[28 + c..] == id.uuid
  {
    var version := Stored(id).version;
    LayoutParts(version, id.cluster, Uint64(id.location), id.uuid);
    LayoutValues(version, id.cluster, Uint64(id.location), id.uuid);
    VersionOne();
  }

  lemma VersionOne()
    ensures Hex(1, 4) == "0001"
  {
    assert Hex(0, 0) == "" && Hex(0, 1) == "0" && Hex(0, 2) == "00" && Hex(0, 3) == "000";
  }

  /** An identifier that can be composed is recovered, with the default version filled in. */
  lemma RoundTrip(id: Identifier)
    requires id.Typed() && Compose(id).Some?
    ensures Decompose(Compose(id).value) == Ok(id.(version := if id.version == 0 then 1 else id.version))
  {
    var version, c := Stored(id).version, |id.cluster|;
    LayoutParts(version, id.cluster, Uint64(id.location), id.uuid);
    LayoutValues(version, id.cluster, Uint64(id.location), id.uuid);
    DecomposedTo(Compose(id).value, version, c, Uint64(id.location));
  }

  /** Different identifiers have different texts, versions 0 and 1 counting as the same. */
  lemma ComposeInjective(a: Identifier, b: Identifier)
    requires a.Typed() && b.Typed() && Compose(a).Some? && Compose(a) == Compose(b)
    ensures a.location == b.location && a.cluster == b.cluster && a.uuid == b.uuid
    ensures a.version == b.version || (a.version <= 1 && b.version <= 1)
  {
    RoundTrip(a);
    RoundTrip(b);
  }

  /** The length of the cluster ID that a text announces. */
  function Announced(s: string): Option<nat>
    requires |s| >= 9
  {
    Field16(s[5..9])
  }

  /** Decoding is total, except that an announced cluster ID of 65535 bytes overflows the offset arithmetic. */
  lemma PanicsIff(s: string)
    ensures Decompose(s) == Panic <==>
            |s| % 0x1_0000 >= 64 && Field16(s[0..4]).Some? && Field16(s[5..9]) == Some(0xFFFF)
  {
  }

  lemma FourDigits(s: string)
    requires |s| == 4 && forall i :: 0 <= i < 4 ==> DigitValue(s[i]) < 16
    ensures Value(s, Sixteen) ==
            Some(((DigitValue(s[0]) * 16 + DigitValue(s[1])) * 16 + DigitValue(s[2])) * 16 + DigitValue(s[3]))
  {
    assert Value(s[..0], Sixteen) == Some(0);
    assert s[..1][..0] == s[..0] && s[..2][..1] == s[..1] && s[..3][..2] == s[..2];
    assert Value(s[..1], Sixteen) == Some(DigitValue(s[0]));
    assert Value(s[..2], Sixteen) == Some(DigitValue(s[0]) * 16 + DigitValue(s[1]));
  }

  lemma PanicExample(rest: string)
    requires |rest| == 54
    ensures Decompose("0001-ffff-" + rest) == Panic
  {
    var s := "0001-ffff-" + rest;
    FourDigits(s[0..4]);
    FourDigits(s[5..9]);
    PanicsIff(s);
  }

  /** What an accepted text looks like; its length is only looked at modulo 2^16. */
  lemma AcceptedIff(s: string)
    ensures Decompose(s).Ok? <==>
            && |s| % 0x1_0000 >= 64 && Value(s[0..4], Sixteen).Some? && Value(s[5..9], Sixteen).Some?
            && var c := Value(s[5..9], Sixteen).value;
               |s| % 0x1_0000 == 64 + c && Value(s[11 + c..27 + c], Sixteen).Some?
  {
  }

  /** The texts that ComposeCSIID produces: the separators in place and lower-case digits. */
  predicate Canonical(s: string) {
    && 64 <= |s| <= 128 && Announced(s) == Some(|s| - 64)
    && var c := |s| - 64;
       && s[4] == s[9] == s[10 + c] == s[27 + c] == '-'
       && Lower(s[0..4]) && Lower(s[5..9]) && Lower(s[11 + c..27 + c]) && Field16(s[0..4]) != Some(0)
  }

  lemma SamePieces(s: string, t: string, c: nat)
    requires |s| == |t| == FIXED + c
    requires s[0..4] == t[0..4] && s[5..9] == t[5..9] && s[10..10 + c] == t[10..10 + c]
    requires s[11 + c..27 + c] == t[11 + c..27 + c] && s[28 + c..64 + c] == t[28 + c..64 + c]
    requires s[4] == t[4] && s[9] == t[9] && s[10 + c] == t[10 + c] && s[27 + c] == t[27 + c]
    ensures s == t
  {
  }

  lemma Signed(n: nat)
    requires n < 0x1_0000_0000_0000_0000
    ensures Int64(ToInt64(n)) && Uint64(ToInt64(n)) == n
  {
  }

  /** A text is what its own fields are composed to exactly when it is canonical. */
  lemma LayoutIsCanonical(s: string, id: Identifier, c: nat)
    requires id.Typed() && |s| == FIXED + c <= MAX_LENGTH && |id.uuid| == UUID_LENGTH && |id.cluster| == c
    requires Announced(s) == Some(c) && (Hex(c, 4) == s[5..9] <==> Lower(s[5..9]))
    requires Field16(s[0..4]) == Some(id.version) && (Hex(id.version, 4) == s[0..4] <==> Lower(s[0..4]))
    requires Hex(Uint64(id.location), 16) == s[11 + c..27 + c] <==> Lower(s[11 + c..27 + c])
    requires id.cluster == s[10..10 + c] && id.uuid == s[28 + c..64 + c]
    requires Hex(1, 4) == s[0..4] ==> id.version == 1
    ensures Layout(Stored(id).version, id.cluster, Uint64(id.location), id.uuid) == s <==> Canonical(s)
  {
    var t := Layout(Stored(id).version, id.cluster, Uint64(id.location), id.uuid);
    LayoutParts(Stored(id).version, id.cluster, Uint64(id.location), id.uuid);
    if Canonical(s) {
      SamePieces(t, s, c);
    }
  }

  /** What is decoded, piece by piece; the separators are not looked at. */
  lemma AcceptedFields(s: string)
    requires Decompose(s).Ok?
    ensures |s| >= 64 && Field16(s[5..9]).Some? && |s| % 0x1_0000 == 64 + Field16(s[5..9]).value <= |s|
    ensures var id, c := Decompose(s).id, Field16(s[5..9]).value;
            && Field16(s[0..4]) == Some(id.version) && id.cluster == s[10..10 + c] && id.uuid == s[28 + c..64 + c]
            && Value(s[11 + c..27 + c], Sixteen).Some?
            && var n := Value(s[11 + c..27 + c], Sixteen).value;
               id.location == if n < 0x8000_0000_0000_0000 then n else n - 0x1_0000_0000_0000_0000
  {
  }

  /** Composing what was decomposed gives the same text exactly for canonical texts. */
  lemma CanonicalIff(s: string)
    requires Decompose(s).Ok?
    ensures Decompose(s).id.Typed()
    ensures Compose(Decompose(s).id) == Some(s) <==> Canonical(s)
  {
    AcceptedFields(s);
    var id, c := Decompose(s).id, Announced(s).value;
    FieldsCanonical(s, id, c);
  }

  lemma FieldsCanonical(s: string, id: Identifier, c: nat)
    requires FIXED + c <= |s| && Announced(s) == Some(c) && Field16(s[0..4]) == Some(id.version)
    requires id.cluster == s[10..10 + c] && id.uuid == s[28 + c..64 + c]
    requires Value(s[11 + c..27 + c], Sixteen).Some? && id.location == ToInt64(Value(s[11 + c..27 + c], Sixteen).value)
    ensures id.Typed()
    ensures Compose(id) == Some(s) <==> Canonical(s)
  {
    var digits := s[11 + c..27 + c];
    Widths();
    ValueBound(digits);
    Signed(Value(digits, Sixteen).value);
    HexOfValue(s[0..4]);
    HexOfValue(s[5..9]);
    HexOfValue(digits);
    ValueOfHex(1, 4);
    if |s| == FIXED + c <= MAX_LENGTH {
      LayoutIsCanonical(s, id, c);
    }
  }
}
