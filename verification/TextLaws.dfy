/** What the texts of mini_itoa and the conversions of mini_vsnprintf mean: the number, character or
    string that a reader gets back from the text. */
module TextLaws {
  import opened Strings
  import opened Numbers
  import opened Formatter
  import opened Wrappers

  // ---------------------------------------------------------------- numerals

  /** The value of a digit in either case; 16 for anything else. */
  function DigitValue(c: char): (d: nat)
    ensures d <= 16
  {
    if '0' <= c <= '9' then (c as int) - ('0' as int)
    else if 'a' <= c <= 'f' then (c as int) - ('a' as int) + 10
    else if 'A' <= c <= 'F' then (c as int) - ('A' as int) + 10
    else 16
  }

  /** The number that a numeral stands for. */
  function Value(s: string, radix: nat): nat {
    if s == "" then 0 else Value(s[..|s| - 1], radix) * radix + DigitValue(s[|s| - 1])
  }

  /** Only digits of the radix, and letters of one case. */
  predicate IsNumeral(s: string, radix: nat, upper: bool) {
    forall i :: 0 <= i < |s| ==> DigitValue(s[i]) < radix && !(if upper then 'a' <= s[i] <= 'f' else 'A' <= s[i] <= 'F')
  }

  /** The numeral of a number, with zeros in front up to a width and no others. */
  predicate Spells(s: string, u: nat, radix: nat, upper: bool, width: nat) {
    && s != "" && IsNumeral(s, radix, upper) && Value(s, radix) == u
    && |s| >= width && (|s| > 1 && |s| > width ==> s[0] != '0')
  }

  lemma DigitHasValue(d: nat, upper: bool)
    requires d < 16
    ensures DigitValue(Digit(d, upper)) == d && (Digit(d, upper) == '0' <==> d == 0)
    ensures !(if upper then 'a' <= Digit(d, upper) <= 'f' else 'A' <= Digit(d, upper) <= 'F')
  {
  }

  /** One more digit. */
  lemma ValueOfMore(s: string, c: char, radix: nat, upper: bool)
    ensures Value(s + [c], radix) == Value(s, radix) * radix + DigitValue(c)
    ensures IsNumeral(s + [c], radix, upper) <==> IsNumeral(s, radix, upper) && IsNumeral([c], radix, upper)
  {
    var t := s + [c];
    assert t[..|t| - 1] == s && t[|t| - 1] == c;
    if IsNumeral(t, radix, upper) {
      forall i | 0 <= i < |s| ensures s[i] == t[i] {}
    }
  }

  lemma OneDigitSpells(u: nat, radix: nat, upper: bool)
    requires u < radix <= 16
    ensures
      var d := [Digit(u, upper)];
      && IsNumeral(d, radix, upper) && Value(d, radix) == u && (u > 0 ==> d[0] != '0') && (u == 0 ==> d == "0")
  {
    DigitHasValue(u, upper);
    ValueOfMore("", Digit(u, upper), radix, upper);
    assert "" + [Digit(u, upper)] == [Digit(u, upper)];
    NothingTimes(Value("", radix), radix);
  }

  lemma NothingTimes(x: nat, radix: nat)
    requires x == 0
    ensures x * radix == 0
  {
  }

  lemma DigitsUnfold(u: nat, radix: nat, upper: bool, q: nat, r: nat)
    requires 2 <= radix <= 16 && u >= radix && q == u / radix && r == u % radix
    ensures r < radix && Digits(u, radix, upper) == Digits(q, radix, upper) + [Digit(r, upper)]
  {
    Division(u, radix);
  }

  lemma {:induction false} DigitsSpell(u: nat, radix: nat, upper: bool)
    requires 2 <= radix <= 16
    ensures
      var d := Digits(u, radix, upper);
      && IsNumeral(d, radix, upper) && Value(d, radix) == u && (u > 0 ==> d[0] != '0') && (u == 0 ==> d == "0")
    decreases u
  {
    if u < radix {
      OneDigitSpells(u, radix, upper);
    } else {
      var q, r := Halved(u, radix);
      DigitsUnfold(u, radix, upper, q, r);
      DigitsSpell(q, radix, upper);
      MoreDigits(u, Digits(q, radix, upper), q, r, radix, upper);
    }
  }

  lemma Halved(u: nat, radix: nat) returns (q: nat, r: nat)
    requires 2 <= radix <= 16 && u >= radix
    ensures q == u / radix && r == u % radix && 0 < q < u && r < radix && u == radix * q + r
  {
    Quotient(u, radix);
    Division(u, radix);
    q, r := u / radix, u % radix;
  }

  lemma MoreDigits(u: nat, rest: string, q: nat, r: nat, radix: nat, upper: bool)
    requires 2 <= radix <= 16 && u == radix * q + r && r < radix && q > 0
    requires IsNumeral(rest, radix, upper) && Value(rest, radix) == q && rest != "" && rest[0] != '0'
    ensures
      var d := rest + [Digit(r, upper)];
      IsNumeral(d, radix, upper) && Value(d, radix) == u && d[0] != '0'
  {
    DigitHasValue(r, upper);
    ValueOfMore(rest, Digit(r, upper), radix, upper);
  }

  lemma {:induction false} ZerosAddNothing(n: int, d: string, radix: nat, upper: bool)
    requires IsNumeral(d, radix, upper) && radix >= 2
    ensures Value(Zeros(n) + d, radix) == Value(d, radix) && IsNumeral(Zeros(n) + d, radix, upper)
    decreases |d|
  {
    var s := Zeros(n) + d;
    if d == "" {
      assert s == Zeros(n);
      ZerosAreNothing(n, radix, upper);
    } else {
      var rest, c := d[..|d| - 1], d[|d| - 1];
      assert d == rest + [c];
      ValueOfMore(rest, c, radix, upper);
      ZerosAddNothing(n, rest, radix, upper);
      ValueOfMore(Zeros(n) + rest, c, radix, upper);
      assert s == Zeros(n) + rest + [c];
    }
  }

  lemma {:induction false} ZerosAreNothing(n: int, radix: nat, upper: bool)
    requires radix >= 2
    ensures Value(Zeros(n), radix) == 0 && IsNumeral(Zeros(n), radix, upper)
  {
    if n > 0 {
      ZerosAreNothing(n - 1, radix, upper);
      ValueOfMore(Zeros(n - 1), '0', radix, upper);
      NothingTimes(Value(Zeros(n - 1), radix), radix);
    }
  }

  /** The text of a number without its sign. */
  function Body(u: nat, radix: nat, upper: bool, pad: nat): string
    requires 2 <= radix <= 16
  {
    var d := Digits(u, radix, upper);
    Zeros(pad - |d|) + d
  }

  lemma BodySpells(u: nat, radix: nat, upper: bool, pad: nat)
    requires 2 <= radix <= 16
    ensures Spells(Body(u, radix, upper, pad), u, radix, upper, pad)
  {
    var d := Digits(u, radix, upper);
    DigitsSpell(u, radix, upper);
    ZerosAddNothing(pad - |d|, d, radix, upper);
    ZerosReversed(pad - |d|);
    if pad <= |d| { assert Zeros(pad - |d|) + d == d; }
  }

  /** A number as 32 bits, read without a sign. */
  function Word32(v: int): nat { v % 0x1_0000_0000 }

  /** What mini_itoa writes: a minus for a negative number, when signs are asked for, and the numeral of
      the absolute value; without signs the numeral of the 32-bit word. */
  lemma TextSpells(v: int, radix: nat, upper: bool, unsig: bool, pad: nat)
    requires IsInt32(v) && 2 <= radix <= 16
    ensures
      var t := Text(v, radix, upper, unsig, pad);
      if unsig then Spells(t, Word32(v), radix, upper, pad)
      else if v < 0 then t != "" && t[0] == '-' && Spells(t[1..], -v, radix, upper, pad)
      else Spells(t, v, radix, upper, pad)
  {
    var u := if unsig then Unsigned(v) else Magnitude(v);
    var t, b := Text(v, radix, upper, unsig, pad), Body(u, radix, upper, pad);
    BodySpells(u, radix, upper, pad);
    SignAndBody(v, radix, upper, unsig, pad);
    if v < 0 && !unsig { assert t[1..] == b; }
  }

  lemma SignAndBody(v: int, radix: nat, upper: bool, unsig: bool, pad: nat)
    requires IsInt32(v) && 2 <= radix <= 16
    ensures
      var b := Body(if unsig then Unsigned(v) else Magnitude(v), radix, upper, pad);
      Text(v, radix, upper, unsig, pad) == if v < 0 && !unsig then "-" + b else b
  {
    var d := Digits(if unsig then Unsigned(v) else Magnitude(v), radix, upper);
    Grouped(if v < 0 && !unsig then "-" else "", Zeros(pad - |d|), d);
    assert "" + (Zeros(pad - |d|) + d) == Zeros(pad - |d|) + d;
  }

  // ---------------------------------------------------------------- formats

  /** A directive: the conversion character, behind a zero and a width if padding is asked for.  A width
      that is no digit counts as zero. */
  function Directive(pad: Option<char>, ch: char): string {
    if pad.None? then ['%', ch] else ['%', '0', pad.value, ch]
  }

  function WidthOf(pad: Option<char>): nat {
    if pad.Some? && '0' <= pad.value <= '9' then DigitValue(pad.value) else 0
  }

  predicate Literal(s: string) { forall i :: 0 <= i < |s| ==> s[i] != '%' }

  lemma {:induction false} LiteralExpands(pre: string, f: string, args: seq<Arg>)
    requires Literal(pre)
    ensures Expansion(pre + f, args) == pre + Expansion(f, args)
    decreases |pre|
  {
    if pre == "" {
      assert pre + f == f;
    } else {
      var s := pre + f;
      assert s[0] == pre[0] && s[1..] == pre[1..] + f && args[0..] == args;
      ItemExpands(s, args, Item([pre[0]], 1, 0), pre[1..] + f);
      LiteralExpands(pre[1..], f, args);
      assert [pre[0]] + pre[1..] == pre;
      Grouped([pre[0]], pre[1..], Expansion(f, args));
    }
  }

  /** A directive between texts is replaced by what its conversion gives, whatever stands around it. */
  lemma DirectiveExpands(pre: string, pad: Option<char>, ch: char, post: string, args: seq<Arg>)
    requires Literal(pre) && (pad.None? ==> ch != '0')
    requires Conversion(ch, WidthOf(pad), |Directive(pad, ch)|, args).Item?
    ensures
      var i := Conversion(ch, WidthOf(pad), |Directive(pad, ch)|, args);
      Expansion(pre + Directive(pad, ch) + post, args) == pre + i.text + Expansion(post, args[i.args..])
  {
    var d := Directive(pad, ch);
    var i := Conversion(ch, WidthOf(pad), |d|, args);
    FirstIsDirective(pad, ch, post, args);
    ItemExpands(d + post, args, i, post);
    LiteralExpands(pre, d + post, args);
    Grouped(pre, d, post);
    Grouped(pre, i.text, Expansion(post, args[i.args..]));
  }

  lemma FirstIsDirective(pad: Option<char>, ch: char, post: string, args: seq<Arg>)
    requires pad.None? ==> ch != '0'
    ensures
      var d := Directive(pad, ch);
      First(d + post, args) == Conversion(ch, WidthOf(pad), |d|, args) && (d + post)[|d|..] == post
  {
    var d := Directive(pad, ch);
    var s := d + post;
    assert s[0] == d[0] && s[1] == d[1];
    if pad.Some? { assert s[2] == d[2] && s[3] == d[3]; }
  }

  lemma ItemExpands(f: string, args: seq<Arg>, i: Item, rest: string)
    requires f != "" && i == First(f, args) && i.Item? && f[i.used..] == rest
    ensures Expansion(f, args) == i.text + Expansion(rest, args[i.args..])
  {
  }

  lemma OneWordTaken(v: int, more: seq<Arg>)
    ensures ([Word(v)] + more)[0] == Word(v) && ([Word(v)] + more)[1..] == more
  {
  }

  /** %d, anywhere in a format: atoi gives the number back, and its absolute value is spelled in decimal
      digits, padded to the width. */
  lemma SignedDirective(pre: string, pad: Option<char>, post: string, v: int, more: seq<Arg>) returns (t: string)
    requires Literal(pre) && IsInt32(v)
    ensures Expansion(pre + Directive(pad, 'd') + post, [Word(v)] + more) == pre + t + Expansion(post, more)
    ensures AtoiOf(t) == v
    ensures if v < 0 then t != "" && t[0] == '-' && Spells(t[1..], -v, 10, false, WidthOf(pad)) else Spells(t, v, 10, false, WidthOf(pad))
  {
    OneWordTaken(v, more);
    DirectiveExpands(pre, pad, 'd', post, [Word(v)] + more);
    t := Text(v, 10, false, false, WidthOf(pad));
    TextSpells(v, 10, false, false, WidthOf(pad));
    AtoiOfText(v, false, WidthOf(pad));
  }

  /** %u: the word read without a sign, in decimal digits. */
  lemma UnsignedDirective(pre: string, pad: Option<char>, post: string, v: int, more: seq<Arg>) returns (t: string)
    requires Literal(pre) && IsInt32(v)
    ensures Expansion(pre + Directive(pad, 'u') + post, [Word(v)] + more) == pre + t + Expansion(post, more)
    ensures Spells(t, Word32(v), 10, false, WidthOf(pad))
  {
    OneWordTaken(v, more);
    DirectiveExpands(pre, pad, 'u', post, [Word(v)] + more);
    t := Text(v, 10, false, true, WidthOf(pad));
    TextSpells(v, 10, false, true, WidthOf(pad));
  }

  /** %x and %X: the word in hexadecimal digits, with small letters and with capitals. */
  lemma HexDirective(pre: string, pad: Option<char>, upper: bool, post: string, v: int, more: seq<Arg>) returns (t: string)
    requires Literal(pre) && IsInt32(v)
    ensures Expansion(pre + Directive(pad, if upper then 'X' else 'x') + post, [Word(v)] + more) == pre + t + Expansion(post, more)
    ensures Spells(t, Word32(v), 16, upper, WidthOf(pad))
  {
    OneWordTaken(v, more);
    DirectiveExpands(pre, pad, if upper then 'X' else 'x', post, [Word(v)] + more);
    t := Text(v, 16, upper, true, WidthOf(pad));
    TextSpells(v, 16, upper, true, WidthOf(pad));
  }

  /** %c: the character of the low eight bits; no padding. */
  lemma CharDirective(pre: string, pad: Option<char>, post: string, v: int, more: seq<Arg>) returns (c: char)
    requires Literal(pre) && IsInt32(v)
    ensures Expansion(pre + Directive(pad, 'c') + post, [Word(v)] + more) == pre + [c] + Expansion(post, more)
    ensures (c as int) < 256 && ((c as int) - v) % 256 == 0
  {
    OneWordTaken(v, more);
    DirectiveExpands(pre, pad, 'c', post, [Word(v)] + more);
    c := AsChar(v);
  }

  /** %s: the string itself; no padding. */
  lemma StringDirective(pre: string, pad: Option<char>, post: string, s: string, more: seq<Arg>)
    requires Literal(pre)
    ensures Expansion(pre + Directive(pad, 's') + post, [Str(s)] + more) == pre + s + Expansion(post, more)
  {
    assert ([Str(s)] + more)[0] == Str(s) && ([Str(s)] + more)[1..] == more;
    DirectiveExpands(pre, pad, 's', post, [Str(s)] + more);
  }

  /** Any other character, the percent sign among them, stands for itself and takes no argument. */
  lemma OtherDirective(pre: string, pad: Option<char>, ch: char, post: string, args: seq<Arg>)
    requires Literal(pre) && !TakesArg(ch) && (pad.None? ==> ch != '0')
    ensures Expansion(pre + Directive(pad, ch) + post, args) == pre + [ch] + Expansion(post, args)
  {
    DirectiveExpands(pre, pad, ch, post, args);
    assert args[0..] == args;
  }

  /** A format that stops inside a directive gives what stands before it. */
  lemma UnfinishedDirective(pre: string, f: string, args: seq<Arg>)
    requires Literal(pre) && Unfinished(f)
    ensures Expansion(pre + f, args) == pre
  {
    LiteralExpands(pre, f, args);
    assert pre + "" == pre;
  }

  /** Printing a number and parsing the buffer again gives the number back. */
  method PrintAndParse(v: int) returns (r: int)
    requires IsInt32(v)
    ensures r == v
  {
    ghost var t := SignedDirective("", None, "", v, []);
    PlainDirective(v, t);
    var buff, ret := Print("%d", [Word(v)]);
    HoldsIt(buff[..], t, ret);
    r := Atoi(buff, t);
  }

  lemma PlainDirective(v: int, t: string)
    requires IsInt32(v) && Expansion("" + Directive(None, 'd') + "", [Word(v)] + []) == "" + t + Expansion("", [])
    ensures WellTyped("%d", [Word(v)]) && Expansion("%d", [Word(v)]) == t && t == Text(v, 10, false, false, 0)
    ensures Prefix(t, 255) == t && NoNul(t)
  {
    var f := "%d";
    assert "" + Directive(None, 'd') + "" == f && [Word(v)] + [] == [Word(v)] && "" + t + "" == t;
    assert First(f, [Word(v)]) == Conversion('d', 0, 2, [Word(v)]);
    assert f[2..] == "" && [Word(v)][1..] == [];
    TextIsShort(v, 10, false, false, 0);
    TextHasNoNul(v, 10, false, false, 0);
  }
}
