/** Decimal and hexadecimal numerals: fmt's %d and %x, strconv.ParseInt and strconv.Atoi. */
module Numerals {
  import opened Options

  function DigitChar(d: nat): char
    requires d < 16
  {
    if d < 10 then ('0' as int + d) as char else ('a' as int + d - 10) as char
  }

  /** The value of a digit of any base up to 36, either case; 36 for anything else. */
  function DigitValue(c: char): nat {
    if '0' <= c <= '9' then c as int - '0' as int
    else if 'a' <= c <= 'z' then c as int - 'a' as int + 10
    else if 'A' <= c <= 'Z' then c as int - 'A' as int + 10
    else 36
  }

  datatype Base = Ten | Sixteen {
    function Of(): nat {
      if Ten? then 10 else 16
    }

    function Quotient(n: nat): nat {
      if Ten? then n / 10 else n / 16
    }

    function Remainder(n: nat): nat {
      if Ten? then n % 10 else n % 16
    }
  }

  function Render(n: nat, base: Base): string {
    if n < base.Of() then [DigitChar(n)] else Render(base.Quotient(n), base) + [DigitChar(base.Remainder(n))]
  }

  function Value(s: string, base: Base): Option<nat> {
    if s == "" then Some(0)
    else
      var v, d := Value(s[..|s| - 1], base), DigitValue(s[|s| - 1]);
      if v.None? || d >= base.Of() then None else Some(if base.Ten? then v.value * 10 + d else v.value * 16 + d)
  }

  /** strconv.ParseInt(s, base, 64) for an explicit base, and strconv.Atoi for base 10. */
  function ParseInt(s: string, base: Base): Option<int> {
    if s == "" then None
    else
      var negative, digits := s[0] == '-', if s[0] == '-' || s[0] == '+' then s[1..] else s;
      var v := Value(digits, base);
      if digits == "" || v.None? || v.value > 0x8000_0000_0000_0000 || (!negative && v.value == 0x8000_0000_0000_0000)
      then None
      else Some(if negative then 0 - v.value else v.value as int)
  }

  predicate Int64(n: int) {
    -0x8000_0000_0000_0000 <= n < 0x8000_0000_0000_0000
  }

  /** %d */
  function Decimal(n: int): string {
    if n < 0 then "-" + Render(-n, Ten) else Render(n, Ten)
  }

  predicate IsDigit(c: char) {
    '0' <= c <= '9' || 'a' <= c <= 'f'
  }

  lemma {:induction false} RenderDigits(n: nat, base: Base)
    ensures Render(n, base) != ""
    ensures forall i :: 0 <= i < |Render(n, base)| ==> IsDigit(Render(n, base)[i])
  {
    if n >= base.Of() {
      RenderDigits(base.Quotient(n), base);
    }
  }

  lemma {:induction false} ValueOfRender(n: nat, base: Base)
    ensures Value(Render(n, base), base) == Some(n)
  {
    var s := Render(n, base);
    if n < base.Of() {
      assert s[..|s| - 1] == "";
    } else {
      ValueOfRender(base.Quotient(n), base);
      assert s[..|s| - 1] == Render(base.Quotient(n), base);
    }
  }

  lemma ParseRender(n: nat, base: Base)
    requires n < 0x8000_0000_0000_0000
    ensures ParseInt(Render(n, base), base) == Some(n)
  {
    RenderDigits(n, base);
    ValueOfRender(n, base);
  }

  lemma ParseNegative(n: nat)
    requires 0 < n <= 0x8000_0000_0000_0000
    ensures ParseInt("-" + Render(n, Ten), Ten) == Some(0 - n)
  {
    RenderDigits(n, Ten);
    ValueOfRender(n, Ten);
    assert ("-" + Render(n, Ten))[1..] == Render(n, Ten);
  }

  lemma ParseDecimal(n: int)
    requires Int64(n)
    ensures ParseInt(Decimal(n), Ten) == Some(n)
  {
    if n < 0 {
      ParseNegative(-n);
    } else {
      ParseRender(n, Ten);
    }
  }

  lemma DecimalChars(n: int)
    ensures Decimal(n) != ""
    ensures forall i :: 0 <= i < |Decimal(n)| ==> IsDigit(Decimal(n)[i]) || Decimal(n)[i] == '-'
    ensures n >= 0 ==> forall i :: 0 <= i < |Decimal(n)| ==> IsDigit(Decimal(n)[i])
  {
    RenderDigits(if n < 0 then -n else n, Ten);
  }

  lemma DecimalInjective(m: int, n: int)
    requires Decimal(m) == Decimal(n)
    ensures m == n
  {
    RenderDigits(if m < 0 then -m else m, Ten);
    RenderDigits(if n < 0 then -n else n, Ten);
    ValueOfRender(if m < 0 then -m else m, Ten);
    ValueOfRender(if n < 0 then -n else n, Ten);
    assert m < 0 ==> Decimal(m)[0] == '-' && Decimal(m)[1..] == Render(-m, Ten);
    assert n < 0 ==> Decimal(n)[0] == '-' && Decimal(n)[1..] == Render(-n, Ten);
  }

  // ---------------------------------------------------------------- what is a number

  /** A text has a value in base 10 exactly if it is made of digits. */
  lemma {:induction false} ValueIff(s: string)
    ensures Value(s, Ten).Some? <==> forall i :: 0 <= i < |s| ==> '0' <= s[i] <= '9'
  {
    if s != "" {
      var n := |s| - 1;
      ValueIff(s[..n]);
      assert forall i :: 0 <= i < n ==> s[i] == s[..n][i];
    }
  }

  /** ParseInt accepts digits after at most one sign, if the number fits; and the sign decides the sign. */
  lemma ParseIntIff(s: string)
    ensures var signed := s != "" && (s[0] == '-' || s[0] == '+');
            var digits := if signed then s[1..] else s;
            && (ParseInt(s, Ten).Some? <==>
                && digits != "" && (forall i :: 0 <= i < |digits| ==> '0' <= digits[i] <= '9')
                && Value(digits, Ten).Some?
                && Value(digits, Ten).value < 0x8000_0000_0000_0000 + if signed && s[0] == '-' then 1 else 0)
            && (ParseInt(s, Ten).Some? ==>
                var n: int := Value(digits, Ten).value;
                ParseInt(s, Ten).value == if signed && s[0] == '-' then -n else n)
  {
    ValueIff(if s != "" && (s[0] == '-' || s[0] == '+') then s[1..] else s);
  }

  lemma Examples()
    ensures Decimal(292) == "292" && Decimal(-7) == "-7" && Render(251, Sixteen) == "fb" && Decimal(0) == "0"
    ensures Value("fb", Sixteen) == Some(251) && Value("FB", Sixteen) == Some(251) && Value("g", Sixteen) == None
  {
    assert Render(29, Ten) == "29" && Render(292, Ten) == "292";
    assert "fb"[..1] == "f" && "FB"[..1] == "F" && "f"[..0] == "" && "F"[..0] == "" && "g"[..0] == "";
    assert Value("f", Sixteen) == Some(15) && Value("F", Sixteen) == Some(15);
  }
}
