/** What atoi makes of blanks, signs and prefixes: the value of the digits, except that letters of a
    hexadecimal number count too much. */
module AtoiLaws {
  import opened Strings
  import opened Numbers
  import opened TextLaws

  const Word: int := 0x1_0000_0000

  function Blanks(n: nat): string { if n == 0 then "" else " " + Blanks(n - 1) }

  /** The string without its blanks. */
  function Compact(u: string): string {
    if u == "" then "" else Compact(u[..|u| - 1]) + if u[|u| - 1] == ' ' then "" else [u[|u| - 1]]
  }

  lemma {:induction false} BlanksSkipped(n: nat, s: string)
    ensures SkipSpaces(Blanks(n) + s) == SkipSpaces(s)
  {
    if n == 0 {
      assert "" + s == s;
    } else {
      assert (Blanks(n) + s)[1..] == Blanks(n - 1) + s;
      BlanksSkipped(n - 1, s);
    }
  }

  /** Blanks among the digits do not count. */
  lemma {:induction false} BlanksIgnored(u: string, base: int)
    ensures Accumulated(u, base) == Accumulated(Compact(u), base)
  {
    if u != "" {
      var t, c := u[..|u| - 1], u[|u| - 1];
      BlanksIgnored(t, base);
      if c != ' ' {
        CompactHasNoBlank(u);
        assert Compact(u)[..|Compact(u)| - 1] == Compact(t);
      } else {
        assert Compact(u) == Compact(t) + "" == Compact(t);
      }
    }
  }

  lemma {:induction false} CompactHasNoBlank(u: string)
    ensures forall i :: 0 <= i < |Compact(u)| ==> Compact(u)[i] != ' ' && Compact(u)[i] in u
  {
    if u != "" { CompactHasNoBlank(u[..|u| - 1]); }
  }

  // ---------------------------------------------------------------- what the digits come to

  /** How much more atoi adds for a character than the digit is worth. */
  function Slip(c: char): int { (c as int) - ('0' as int) - DigitValue(c) }

  /** The same for a whole numeral. */
  function Slips(s: string, base: nat): int {
    if s == "" then 0 else Slips(s[..|s| - 1], base) * base + Slip(s[|s| - 1])
  }

  lemma WordStep(x: int, base: nat, d: int)
    ensures Int32(Int32(x) * base + d) == Int32(x * base + d)
  {
    var q := (x - Int32(x)) / Word;
    assert x == Int32(x) + Word * q;
    calc {
      x * base + d;
      (Int32(x) + Word * q) * base + d;
      (Int32(x) * base + d) + Word * (q * base);
    }
    WordsApart(Int32(x) * base + d, q * base);
  }

  lemma WordsApart(x: int, k: int)
    ensures Int32(x + Word * k) == Int32(x)
  {
  }

  lemma SplitStep(v: nat, e: int, base: nat, dv: nat, de: int)
    ensures (v + e) * base + (dv + de) == (v * base + dv) + (e * base + de)
  {
  }

  /** Without blanks the accumulator holds the value and the slips, as a 32-bit word. */
  lemma {:induction false} AccumulatesValue(s: string, base: nat)
    requires forall i :: 0 <= i < |s| ==> s[i] != ' '
    ensures Accumulated(s, base) == Int32(Value(s, base) + Slips(s, base))
  {
    if s != "" {
      var t, c := s[..|s| - 1], s[|s| - 1];
      AccumulatesValue(t, base);
      WordStep(Value(t, base) + Slips(t, base), base, (c as int) - ('0' as int));
      SplitStep(Value(t, base), Slips(t, base), base, DigitValue(c), Slip(c));
    }
  }

  predicate IsDecimal(c: char) { '0' <= c <= '9' }

  lemma {:induction false} DecimalsDoNotSlip(s: string, base: nat)
    requires forall i :: 0 <= i < |s| ==> IsDecimal(s[i])
    ensures Slips(s, base) == 0
  {
    if s != "" { DecimalsDoNotSlip(s[..|s| - 1], base); }
  }

  function Pow16(k: nat): nat { if k == 0 then 1 else 16 * Pow16(k - 1) }

  /** Is the last k characters' worth of the numeral free of letters? */
  predicate LastDecimal(s: string, k: nat) { forall i :: 0 <= i < |s| && |s| - k <= i ==> IsDecimal(s[i]) }

  predicate HexDigits(s: string) { forall i :: 0 <= i < |s| ==> DigitValue(s[i]) < 16 }

  lemma HexSlip(c: char)
    requires DigitValue(c) < 16
    ensures if IsDecimal(c) then Slip(c) == 0 else Slip(c) == 39 || Slip(c) == 7
  {
  }

  function Times(p: int, q: int): int { p * q }

  predicate Multiple(q: int, x: int, p: int) { x == Times(p, q) }

  ghost predicate Divides(p: int, x: int) { exists q :: Multiple(q, x, p) }

  lemma SixteenTimes(p: int, q: int)
    ensures Times(16 * p, q) == 16 * Times(p, q)
  {
  }

  /** The slips vanish in the last k hexadecimal places only when there is no letter there. */
  lemma {:induction false} SlipsVanish(s: string, k: nat)
    requires HexDigits(s)
    ensures Divides(Pow16(k), Slips(s, 16)) <==> LastDecimal(s, k)
    decreases k
  {
    if k == 0 {
      assert Multiple(Slips(s, 16), Slips(s, 16), 1);
    } else if s == "" {
      assert Multiple(0, 0, Pow16(k));
    } else {
      var t, c := s[..|s| - 1], s[|s| - 1];
      SlipsVanish(t, k - 1);
      HexSlip(c);
      LastOf(s, k);
      SlipsStep(Slips(t, 16), Slip(c), Pow16(k - 1));
    }
  }

  lemma SlipsStep(e: int, d: int, p: nat)
    requires d == 0 || d == 39 || d == 7
    ensures Divides(16 * p, e * 16 + d) <==> d == 0 && Divides(p, e)
  {
    if Divides(16 * p, e * 16 + d) {
      var q :| Multiple(q, e * 16 + d, 16 * p);
      SixteenTimes(p, q);
      assert Multiple(q, e, p);
    }
    if d == 0 && Divides(p, e) {
      var q :| Multiple(q, e, p);
      SixteenTimes(p, q);
      assert Multiple(q, e * 16 + d, 16 * p);
    }
  }

  lemma LastOf(s: string, k: nat)
    requires s != "" && k > 0
    ensures LastDecimal(s, k) <==> IsDecimal(s[|s| - 1]) && LastDecimal(s[..|s| - 1], k - 1)
  {
    var t := s[..|s| - 1];
    if LastDecimal(s, k) {
      forall i | 0 <= i < |t| && |t| - (k - 1) <= i ensures IsDecimal(t[i]) { assert t[i] == s[i]; }
    }
    if IsDecimal(s[|s| - 1]) && LastDecimal(t, k - 1) {
      forall i | 0 <= i < |s| && |s| - k <= i ensures IsDecimal(s[i]) { if i < |t| { assert t[i] == s[i]; } }
    }
  }

  // ---------------------------------------------------------------- atoi

  function Signed(negative: bool, x: int): int { Int32((if negative then -1 else 1) * x) }

  lemma SignedWord(negative: bool, x: int)
    ensures Signed(negative, Int32(x)) == Signed(negative, x)
  {
    var q := (x - Int32(x)) / Word;
    assert x == Int32(x) + Word * q;
    if negative { WordsApart(-Int32(x), -q); } else { WordsApart(Int32(x), q); }
  }

  /** Leading blanks and a sign. */
  lemma AtoiOfSigned(n: nat, negative: bool, u: string)
    requires u != "" && u[0] != ' ' && (!negative ==> u[0] != '-')
    ensures AtoiOf(Blanks(n) + (if negative then "-" else "") + u) == Signed(negative, Unprefixed(u))
  {
    var t := (if negative then "-" else "") + u;
    assert Blanks(n) + (if negative then "-" else "") + u == Blanks(n) + t;
    BlanksSkipped(n, t);
    if negative { assert t[1..] == u; } else { assert t == u; }
  }

  /** Decimal digits, with blanks anywhere before and among them: the number, as a 32-bit word. */
  lemma AtoiOfSpacedDecimal(n: nat, negative: bool, u: string)
    requires u != "" && u[0] != ' ' && forall i :: 0 <= i < |u| ==> u[i] == ' ' || IsDecimal(u[i])
    ensures AtoiOf(Blanks(n) + (if negative then "-" else "") + u) == Signed(negative, Value(Compact(u), 10))
  {
    AtoiOfSigned(n, negative, u);
    ValueOfSpaced(u, 10);
    SignedWord(negative, Value(Compact(u), 10));
  }

  lemma ValueOfSpaced(u: string, base: nat)
    requires forall i :: 0 <= i < |u| ==> u[i] == ' ' || IsDecimal(u[i])
    ensures Accumulated(u, base) == Int32(Value(Compact(u), base))
  {
    BlanksIgnored(u, base);
    CompactIsDecimal(u);
    AccumulatesDecimals(Compact(u), base);
  }

  lemma AccumulatesDecimals(s: string, base: nat)
    requires forall i :: 0 <= i < |s| ==> IsDecimal(s[i])
    ensures Accumulated(s, base) == Int32(Value(s, base))
  {
    AccumulatesValue(s, base);
    DecimalsDoNotSlip(s, base);
  }

  lemma {:induction false} CompactIsDecimal(u: string)
    requires forall i :: 0 <= i < |u| ==> u[i] == ' ' || IsDecimal(u[i])
    ensures forall i :: 0 <= i < |Compact(u)| ==> IsDecimal(Compact(u)[i])
  {
    if u != "" { CompactIsDecimal(u[..|u| - 1]); }
  }

  /** Binary digits behind 0b. */
  lemma AtoiOfBinary(n: nat, negative: bool, u: string)
    requires forall i :: 0 <= i < |u| ==> u[i] == ' ' || u[i] == '0' || u[i] == '1'
    ensures AtoiOf(Blanks(n) + (if negative then "-" else "") + ("0b" + u)) == Signed(negative, Value(Compact(u), 2))
  {
    AtoiOfSigned(n, negative, "0b" + u);
    assert ("0b" + u)[2..] == u;
    ValueOfSpaced(u, 2);
    SignedWord(negative, Value(Compact(u), 2));
  }

  /** Hexadecimal digits behind 0x: atoi takes a letter for its distance from '0', so the number comes
      out right if and only if none of the last eight digits is a letter. */
  lemma AtoiOfHex(n: nat, negative: bool, u: string)
    requires HexDigits(Compact(u))
    ensures AtoiOf(Blanks(n) + (if negative then "-" else "") + ("0x" + u)) == Signed(negative, Value(Compact(u), 16))
      <==> LastDecimal(Compact(u), 8)
  {
    AtoiOfSigned(n, negative, "0x" + u);
    assert ("0x" + u)[2..] == u;
    var s := Compact(u);
    BlanksIgnored(u, 16);
    CompactHasNoBlank(u);
    AccumulatesValue(s, 16);
    SignedWord(negative, Value(s, 16) + Slips(s, 16));
    SlipsVanish(s, 8);
    EightPlaces();
    SameWord(negative, Value(s, 16), Slips(s, 16));
  }

  lemma EightPlaces()
    ensures Pow16(8) == Word
  {
    assert Pow16(4) == 65536;
    assert Pow16(8) == 65536 * Pow16(4);
  }

  /** Adding a number changes nothing in 32 bits exactly when it is a multiple of 2 to the 32. */
  lemma SameWord(negative: bool, x: int, e: int)
    ensures Signed(negative, x + e) == Signed(negative, x) <==> Divides(Word, e)
  {
    if Divides(Word, e) {
      var q :| Multiple(q, e, Word);
      if negative { WordsApart(-x, -q); } else { WordsApart(x, q); }
    }
    if Signed(negative, x + e) == Signed(negative, x) {
      var y := if negative then -x else x;
      var z := if negative then -e else e;
      var q := InWords(y, z);
      assert Multiple(if negative then -q else q, e, Word);
    }
  }

  lemma InWords(y: int, z: int) returns (q: int)
    requires Int32(y + z) == Int32(y)
    ensures z == Word * q
  {
    var a := (y + z - Int32(y + z)) / Word;
    var b := (y - Int32(y)) / Word;
    assert y + z == Int32(y + z) + Word * a && y == Int32(y) + Word * b;
    q := a - b;
  }

  /** The text "0xa" is taken for 49. */
  lemma HexLetterMisread()
    ensures AtoiOf("0xa") == 49 && Value("a", 16) == 10
  {
    assert Compact("a") == "a" by { assert "a"[..0] == ""; assert Compact("") == ""; }
    assert ("" + ("0x" + "a")) == "0xa";
    AtoiOfSigned(0, false, "0xa");
    assert Blanks(0) + "" + "0xa" == "0xa";
    assert "0xa"[2..] == "a" && "a"[..0] == "";
    assert Accumulated("", 16) == 0 && Accumulated("a", 16) == 49;
    ValueOfMore("", 'a', 16, false);
    assert "" + ['a'] == "a" && Value("", 16) == 0;
  }
}
