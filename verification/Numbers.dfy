/** Numbers as text: mini_itoa (libs/printk.c:56-101) and atoi (libs/string.c:60-92), the second
    the inverse of the first. */
module Numbers {
  import opened Strings

  // ---------------------------------------------------------------- numbers as text

  function Digit(d: nat, upper: bool): char
    requires d < 16
  {
    if d < 10 then ('0' as int + d) as char else ((if upper then 'A' else 'a') as int + d - 10) as char
  }

  /** The digits of a number, most significant first. */
  function Digits(u: nat, radix: nat, upper: bool): (s: string)
    requires 2 <= radix <= 16
    ensures |s| >= 1
  {
    if u < radix then [Digit(u, upper)] else Digits(u / radix, radix, upper) + [Digit(u % radix, upper)]
  }

  function Zeros(n: int): string { if n <= 0 then "" else Zeros(n - 1) + "0" }

  /** The magnitude that is written: the absolute value, or the word read as unsigned. */
  function Magnitude(v: int): nat
    requires IsInt32(v)
  {
    if v < 0 then -v else v
  }

  function Unsigned(v: int): nat
    requires IsInt32(v)
  {
    if v < 0 then v + 0x1_0000_0000 else v
  }

  /** The text of a number: padded with zeros to a width, the sign in front. */
  function Text(v: int, radix: nat, upper: bool, unsig: bool, pad: nat): string
    requires IsInt32(v) && 2 <= radix <= 16
  {
    var d := Digits(if unsig then Unsigned(v) else Magnitude(v), radix, upper);
    (if v < 0 && !unsig then "-" else "") + Zeros(pad - |d|) + d
  }

  // ---------------------------------------------------------------- mini_itoa

  function Reversed(s: string): (r: string)
    ensures |r| == |s| && forall i :: 0 <= i < |s| ==> r[i] == s[|s| - 1 - i]
  {
    seq(|s|, i requires 0 <= i < |s| => s[|s| - 1 - i])
  }

  lemma {:induction false} ZerosAre(n: nat)
    ensures |Zeros(n)| == n && forall i :: 0 <= i < n ==> Zeros(n)[i] == '0'
  {
    if n > 0 { ZerosAre(n - 1); }
  }

  /** The reversal at the end of mini_itoa, lines 92-98. */
  method ReverseInPlace(a: array<char>, len: nat)
    requires len <= a.Length
    modifies a
    ensures a[..len] == Reversed(old(a[..len])) && a[len..] == old(a[len..])
  {
    var i := 0;
    while i < len / 2
      invariant 0 <= i <= len / 2
      invariant forall k :: 0 <= k < i ==> a[k] == old(a[len - 1 - k]) && a[len - 1 - k] == old(a[k])
      invariant forall k :: i <= k < len - i ==> a[k] == old(a[k])
      invariant forall k :: len <= k < a.Length ==> a[k] == old(a[k])
    {
      var j := a[i];
      a[i] := a[len - i - 1];
      a[len - i - 1] := j;
      i := i + 1;
    }
  }

  /** The digits still to be written are the first ones, those written stand in reverse order. */
  predicate Written(a: seq<char>, n: nat, d: string, value: nat, radix: nat, upper: bool)
    requires 2 <= radix <= 16
  {
    && n <= |d| && n <= |a| && (forall k :: 0 <= k < n ==> a[k] == d[|d| - 1 - k])
    && d[..|d| - n] == if value == 0 then "" else Digits(value, radix, upper)
  }

  lemma OneDigit(a: seq<char>, n: nat, d: string, value: nat, radix: nat, upper: bool)
    requires 2 <= radix <= 16 && Written(a, n, d, value, radix, upper) && value > 0 && |d| <= |a|
    ensures value / radix >= 0 && value % radix < radix && value / radix < value && n < |d|
    ensures Written(a[n := Digit(value % radix, upper)], n + 1, d, value / radix, radix, upper)
  {
    Unfold(value, radix, upper);
    var rest := d[..|d| - n];
    assert d[..|d| - (n + 1)] == rest[..|rest| - 1];
    assert d[|d| - 1 - n] == rest[|rest| - 1];
  }

  /** The do loop of lines 75-80, which writes the digits back to front. */
  method PutDigits(a: array<char>, u: nat, radix: nat, upper: bool) returns (n: nat)
    requires 2 <= radix <= 16 && |Digits(u, radix, upper)| <= a.Length
    modifies a
    ensures n == |Digits(u, radix, upper)| && Written(a[..], n, Digits(u, radix, upper), 0, radix, upper)
  {
    ghost var d := Digits(u, radix, upper);
    Unfold(u, radix, upper);
    n := 0;
    var value: nat := u;
    a[n] := Digit(value % radix, upper);
    n := n + 1;
    value := value / radix;
    while value > 0
      invariant 0 <= value && Written(a[..], n, d, value, radix, upper)
      decreases value
    {
      OneDigit(a[..], n, d, value, radix, upper);
      a[n] := Digit(value % radix, upper);
      n := n + 1;
      value := value / radix;
    }
  }

  lemma Division(u: nat, radix: nat)
    requires 2 <= radix <= 16
    ensures 0 <= u % radix < radix && u == radix * (u / radix) + u % radix && u / radix >= 0
  {
  }

  lemma Quotient(u: nat, radix: nat)
    requires 2 <= radix <= 16
    ensures 0 <= u / radix && (u < radix ==> u / radix == 0 && u % radix == u) && (u >= radix ==> u / radix > 0) && (u > 0 ==> u / radix < u)
  {
    Division(u, radix);
    var q, r := u / radix, u % radix;
    if q > 0 { assert radix * q >= 2 * q; } else { assert radix * q == 0; }
    assert q > 0 ==> radix * q >= radix;
  }

  lemma Unfold(u: nat, radix: nat, upper: bool)
    requires 2 <= radix <= 16
    ensures u / radix >= 0 && u % radix < radix && (u > 0 ==> u / radix < u)
    ensures var d := Digits(u, radix, upper);
      d == (if u / radix == 0 then "" else Digits(u / radix, radix, upper)) + [Digit(u % radix, upper)]
  {
    Quotient(u, radix);
  }

  /** What the buffer holds before it is turned round. */
  function BackToFront(d: string, pad: nat, negative: bool): string {
    Reversed(d) + Zeros(pad - |d|) + (if negative then "-" else "")
  }

  lemma {:induction false} ZerosReversed(n: int)
    ensures Reversed(Zeros(n)) == Zeros(n) && (|Zeros(n)| == if n > 0 then n else 0)
  {
    if n > 0 { ZerosAre(n); }
  }

  lemma ReversedConcat(a: string, b: string)
    ensures Reversed(a + b) == Reversed(b) + Reversed(a)
  {
  }

  lemma ReversedTwice(a: string)
    ensures Reversed(Reversed(a)) == a
  {
  }

  lemma Grouped(a: string, b: string, c: string)
    ensures a + b + c == a + (b + c)
  {
  }

  lemma TurnedRound(d: string, pad: nat, negative: bool)
    ensures Reversed(BackToFront(d, pad, negative)) == (if negative then "-" else "") + Zeros(pad - |d|) + d
  {
    var z, sign := Zeros(pad - |d|), if negative then "-" else "";
    ZerosReversed(pad - |d|);
    ReversedTwice(d);
    ReversedConcat(Reversed(d), z);
    ReversedConcat(Reversed(d) + z, sign);
    assert Reversed(sign) == sign;
    Grouped(sign, z, d);
  }

  lemma BackChars(d: string, pad: nat, negative: bool)
    ensures
      var raw := BackToFront(d, pad, negative);
      var m := if pad > |d| then pad else |d|;
      && |raw| == m + (if negative then 1 else 0) && (negative ==> raw[m] == '-')
      && (forall k :: 0 <= k < |d| ==> raw[k] == d[|d| - 1 - k]) && (forall k :: |d| <= k < m ==> raw[k] == '0')
  {
    ZerosReversed(pad - |d|);
    if pad > |d| { ZerosAre(pad - |d|); }
  }

  lemma {:induction false} DigitsHaveNoNul(u: nat, radix: nat, upper: bool)
    requires 2 <= radix <= 16
    ensures NoNul(Digits(u, radix, upper))
    decreases u
  {
    Quotient(u, radix);
    if u >= radix { DigitsHaveNoNul(u / radix, radix, upper); }
  }

  lemma TextHasNoNul(v: int, radix: nat, upper: bool, unsig: bool, pad: nat)
    requires IsInt32(v) && 2 <= radix <= 16
    ensures NoNul(Text(v, radix, upper, unsig, pad))
  {
    var u := if unsig then Unsigned(v) else Magnitude(v);
    DigitsHaveNoNul(u, radix, upper);
    var z := pad - |Digits(u, radix, upper)|;
    ZerosReversed(z);
    if z > 0 { ZerosAre(z); }
  }

  /** Lines 82-88: zeros up to the width, the sign, and the NUL. */
  method PutPadding(a: array<char>, n: nat, pad: nat, negative: bool, ghost d: string) returns (len: nat)
    requires n == |d| && n <= a.Length && |BackToFront(d, pad, negative)| < a.Length
    requires forall k :: 0 <= k < n ==> a[k] == d[|d| - 1 - k]
    modifies a
    ensures len == |BackToFront(d, pad, negative)| && a[..len] == BackToFront(d, pad, negative) && a[len] == '\0'
  {
    ghost var raw := BackToFront(d, pad, negative);
    BackChars(d, pad, negative);
    var i := n;
    while i < pad
      invariant n <= i && (i <= pad || i == n) && forall k :: 0 <= k < i ==> a[k] == raw[k]
    {
      a[i] := '0';
      i := i + 1;
    }
    if negative {
      a[i] := '-';
      i := i + 1;
    }
    a[i] := '\0';
    len := i;
  }

  /** mini_itoa: the buffer holds the text of the number, and its length is returned. */
  method MiniItoa(value: int, radix: nat, upper: bool, unsig: bool, buffer: array<char>, pad: nat) returns (len: nat)
    requires IsInt32(value) && 2 <= radix
    requires radix <= 16 ==> |Text(value, radix, upper, unsig, pad)| < buffer.Length
    modifies buffer
    ensures radix > 16 ==> len == 0 && buffer[..] == old(buffer[..])
    ensures radix <= 16 ==> len == |Text(value, radix, upper, unsig, pad)| && Holds(buffer[..], 0, Text(value, radix, upper, unsig, pad))
  {
    if radix > 16 { return 0; }
    var negative := value < 0 && !unsig;
    var u: nat := if negative then Unsigned(Int32(-value)) else Unsigned(value);
    ghost var d := Digits(u, radix, upper);
    assert u == if unsig then Unsigned(value) else Magnitude(value);
    ghost var raw := BackToFront(d, pad, negative);
    ghost var text := Text(value, radix, upper, unsig, pad);
    TurnedRound(d, pad, negative);
    TextHasNoNul(value, radix, upper, unsig, pad);
    assert text == Reversed(raw);
    var n := PutDigits(buffer, u, radix, upper);
    len := PutPadding(buffer, n, pad, negative, d);
    ReverseInPlace(buffer, len);
    assert buffer[len] == buffer[len..][0];
    HoldsIt(buffer[..], text, len);
  }

  lemma HoldsIt(b: seq<char>, s: string, len: nat)
    requires len == |s| < |b| && b[..len] == s && b[len] == '\0' && NoNul(s)
    ensures Holds(b, 0, s)
  {
    forall i | 0 <= i < |s| ensures b[0 + i] == s[i] { assert b[..len][i] == s[i]; }
  }

  // ---------------------------------------------------------------- atoi

  function SkipSpaces(s: string): (t: string)
    ensures |t| <= |s|
  {
    if s != "" && s[0] == ' ' then SkipSpaces(s[1..]) else s
  }

  /** The accumulator after the characters of s, as a 32-bit word. */
  function Accumulated(s: string, base: int): int {
    if s == "" then 0
    else
      var abs, c := Accumulated(s[..|s| - 1], base), s[|s| - 1];
      if c == ' ' then abs else Int32(abs * base + (c as int) - ('0' as int))
  }

  predicate Prefixed(s: string, c: char) { |s| >= 2 && s[0] == '0' && s[1] == c }

  /** The value of the digits in the base that their prefix asks for. */
  function Unprefixed(u: string): int {
    if Prefixed(u, 'x') then Accumulated(u[2..], 16) else if Prefixed(u, 'b') then Accumulated(u[2..], 2) else Accumulated(u, 10)
  }

  /** What atoi returns for a string. */
  function AtoiOf(s: string): int {
    var t := SkipSpaces(s);
    var negative := t != "" && t[0] == '-';
    var u := if negative then t[1..] else t;
    Int32((if negative then -1 else 1) * Unprefixed(u))
  }

  /** The rest of a string after a character that is not the NUL. */
  lemma HoldsOn(b: seq<char>, p: nat, s: string)
    requires Holds(b, p, s)
    ensures s == "" <==> b[p] == '\0'
    ensures s != "" ==> s[0] == b[p] && Holds(b, p + 1, s[1..])
  {
    if s != "" {
      assert b[p + 0] == s[0];
      forall i | 0 <= i < |s| - 1 ensures s[1..][i] == b[p + 1 + i] != '\0' { assert b[p + (i + 1)] == s[i + 1]; }
    }
  }

  method Atoi(a: array<char>, ghost s: string) returns (r: int)
    requires Holds(a[..], 0, s)
    ensures r == AtoiOf(s)
  {
    var sign := 1;
    var p := SkipBlanks(a, s);
    ghost var t := SkipSpaces(s);
    HoldsOn(a[..], p, t);
    if a[p] == '-' {
      t := t[1..];
      p := p + 1;
      sign := -1;
    }
    r := AfterSign(a, p, t);
    r := Int32(sign * r);
  }

  method SkipBlanks(a: array<char>, ghost s: string) returns (p: nat)
    requires Holds(a[..], 0, s)
    ensures Holds(a[..], p, SkipSpaces(s))
  {
    p := 0;
    ghost var t := s;
    HoldsOn(a[..], p, t);
    while a[p] == ' '
      invariant 0 <= p && Holds(a[..], p, t) && SkipSpaces(t) == SkipSpaces(s)
      invariant p + |t| < a.Length
      decreases |t|
    {
      HoldsOn(a[..], p, t);
      t := t[1..];
      p := p + 1;
    }
    HoldsOn(a[..], p, t);
  }

  /** Lines 73-90: an optional prefix, and the digits. */
  method AfterSign(a: array<char>, at: nat, ghost u: string) returns (abs: int)
    requires Holds(a[..], at, u)
    ensures abs == Unprefixed(u)
  {
    var p, base := at, 10;
    ghost var t := u;
    HoldsOn(a[..], p, t);
    if t != "" { HoldsOn(a[..], p + 1, t[1..]); }
    if t != "" && t[1..] != "" { HoldsOn(a[..], p + 2, t[1..][1..]); assert t[1..][1..] == t[2..]; }
    if a[p] == '0' && a[p + 1] == 'x' {
      base := 16;
      p := p + 2;
      t := t[2..];
    } else if a[p] == '0' && a[p + 1] == 'b' {
      base := 2;
      p := p + 2;
      t := t[2..];
    }
    abs := Accumulate(a, p, base, t);
  }

  /** The digit loop of lines 83-90. */
  method Accumulate(a: array<char>, p: nat, base: int, ghost t: string) returns (abs: int)
    requires Holds(a[..], p, t)
    ensures abs == Accumulated(t, base)
  {
    abs := 0;
    var i := 0;
    while a[p + i] != '\0'
      invariant 0 <= i <= |t| && abs == Accumulated(t[..i], base)
      decreases |t| - i
    {
      assert i < |t| && a[..][p + i] == t[i];
      assert t[..i + 1][..i] == t[..i];
      if a[p + i] != ' ' {
        abs := Int32(abs * base + (a[p + i] as int) - ('0' as int));
      }
      i := i + 1;
    }
    AtEnd(a[..], p, t, i);
    assert t[..i] == t;
  }

  lemma {:induction false} AtEnd(b: seq<char>, p: nat, t: string, i: nat)
    requires Holds(b, p, t) && i <= |t| && b[p + i] == '\0'
    ensures i == |t|
    decreases i
  {
    HoldsOn(b, p, t);
    if i > 0 { AtEnd(b, p + 1, t[1..], i - 1); }
  }

  // ---------------------------------------------------------------- the round trip

  predicate AllDecimal(s: string) { forall i :: 0 <= i < |s| ==> '0' <= s[i] <= '9' }

  function Decimal(s: string): int {
    if s == "" then 0 else Decimal(s[..|s| - 1]) * 10 + (s[|s| - 1] as int) - ('0' as int)
  }

  lemma Int32Step(x: int, d: int)
    ensures Int32(Int32(x) * 10 + d) == Int32(x * 10 + d)
  {
    var q := (x - Int32(x)) / 0x1_0000_0000;
    assert x == Int32(x) + 0x1_0000_0000 * q;
    assert x * 10 + d == (Int32(x) * 10 + d) + 0x1_0000_0000 * (10 * q);
  }

  lemma {:induction false} AccumulatesDecimal(s: string)
    requires AllDecimal(s)
    ensures Accumulated(s, 10) == Int32(Decimal(s))
    decreases |s|
  {
    if s != "" {
      var t := s[..|s| - 1];
      AccumulatesDecimal(t);
      Int32Step(Decimal(t), (s[|s| - 1] as int) - ('0' as int));
    }
  }

  lemma {:induction false} DecimalOfDigits(u: nat, upper: bool)
    ensures Decimal(Digits(u, 10, upper)) == u && AllDecimal(Digits(u, 10, upper))
    decreases u
  {
    if u < 10 {
      assert Decimal("") == 0;
      assert [Digit(u, upper)][..0] == "";
    } else {
      var d := Digits(u, 10, upper);
      DecimalOfDigits(u / 10, upper);
      assert d[..|d| - 1] == Digits(u / 10, 10, upper);
    }
  }

  lemma {:induction false} DecimalOfZeros(n: int, d: string)
    requires AllDecimal(d)
    ensures Decimal(Zeros(n) + d) == Decimal(d) && AllDecimal(Zeros(n) + d)
    decreases |d|
  {
    var s := Zeros(n) + d;
    if d == "" {
      assert s == Zeros(n);
      OnlyZeros(n);
    } else {
      DecimalOfZeros(n, d[..|d| - 1]);
      assert s[..|s| - 1] == Zeros(n) + d[..|d| - 1];
    }
  }

  lemma {:induction false} OnlyZeros(n: int)
    ensures Decimal(Zeros(n)) == 0 && AllDecimal(Zeros(n))
  {
    if n > 0 {
      var s := Zeros(n);
      OnlyZeros(n - 1);
      assert s[..|s| - 1] == Zeros(n - 1) && s[|s| - 1] == '0';
    }
  }

  /** A sign and digits are parsed as they stand. */
  lemma AtoiOfDecimal(u: string, negative: bool)
    requires u != "" && AllDecimal(u)
    ensures AtoiOf((if negative then "-" else "") + u) == Int32((if negative then -1 else 1) * Int32(Decimal(u)))
  {
    var s := (if negative then "-" else "") + u;
    AccumulatesDecimal(u);
    assert '0' <= u[0] <= '9';
    assert |u| >= 2 ==> '0' <= u[1] <= '9';
    assert SkipSpaces(s) == s;
    if negative { assert s[1..] == u; } else { assert s == u; }
  }

  lemma TextIs(v: int, upper: bool, pad: nat)
    requires IsInt32(v)
    ensures
      var d := Digits(Magnitude(v), 10, upper);
      Text(v, 10, upper, false, pad) == (if v < 0 then "-" else "") + (Zeros(pad - |d|) + d)
  {
    var d := Digits(Magnitude(v), 10, upper);
    Grouped(if v < 0 then "-" else "", Zeros(pad - |d|), d);
  }

  /** Parsing the text of any 32-bit number, padded to any width, gives the number back. */
  lemma AtoiOfText(v: int, upper: bool, pad: nat)
    requires IsInt32(v)
    ensures AtoiOf(Text(v, 10, upper, false, pad)) == v
  {
    var d := Digits(Magnitude(v), 10, upper);
    DecimalOfDigits(Magnitude(v), upper);
    DecimalOfZeros(pad - |d|, d);
    TextIs(v, upper, pad);
    AtoiOfDecimal(Zeros(pad - |d|) + d, v < 0);
    SignedBack(v);
  }

  lemma SignedBack(v: int)
    requires IsInt32(v)
    ensures Int32((if v < 0 then -1 else 1) * Int32(Magnitude(v))) == v
  {
  }
}
