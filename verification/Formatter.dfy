/** The bounded formatter of libs/printk.c:103-250 against an unbounded expansion. */
module Formatter {
  import opened Sealing
  import opened Strings
  import opened Numbers

  /** An argument: a 32-bit word, or a string. */
  datatype Arg = Word(value: int) | Str(text: string)

  /** What one character or directive at the start of a format does: the text it stands for, the
      characters of the format and the arguments it uses up. */
  datatype Item = End | Item(text: string, used: nat, args: nat)

  function AsChar(v: int): char { (v % 256) as char }

  /** The conversion character itself, lines 170-199. */
  function Conversion(ch: char, pad: nat, used: nat, args: seq<Arg>): Item {
    if ch == 'u' || ch == 'd' || ch == 'x' || ch == 'X' || ch == 'c' then
      if args == [] || !args[0].Word? || !IsInt32(args[0].value) then End
      else if ch == 'c' then Item([AsChar(args[0].value)], used, 1)
      else if ch == 'u' || ch == 'd' then Item(Text(args[0].value, 10, false, ch == 'u', pad), used, 1)
      else Item(Text(args[0].value, 16, ch == 'X', true, pad), used, 1)
    else if ch == 's' then
      if args == [] || !args[0].Str? then End else Item(args[0].text, used, 1)
    else Item([ch], used, 0)
  }

  function Width(ch: char): nat { if '0' <= ch <= '9' then (ch as int) - ('0' as int) else 0 }

  /** A directive may ask for zero padding; a format that stops inside one ends there. */
  function First(fmt: string, args: seq<Arg>): (i: Item)
    requires fmt != ""
    ensures i.Item? ==> 0 < i.used <= |fmt| && i.args <= |args|
  {
    if fmt[0] != '%' then Item([fmt[0]], 1, 0)
    else if |fmt| == 1 then End
    else if fmt[1] == '0' then (if |fmt| <= 3 then End else Conversion(fmt[3], Width(fmt[2]), 4, args))
    else Conversion(fmt[1], 0, 2, args)
  }

  /** The unbounded expansion of a format. */
  function Expansion(fmt: string, args: seq<Arg>): string
    decreases |fmt|
  {
    if fmt == "" then ""
    else
      var i := First(fmt, args);
      if i.End? then "" else i.text + Expansion(fmt[i.used..], args[i.args..])
  }

  /** Every conversion that is reached finds an argument of its kind. */
  predicate WellTyped(fmt: string, args: seq<Arg>)
    decreases |fmt|
  {
    fmt != "" ==>
      var i := First(fmt, args);
      && (i.End? ==> fmt[0] == '%' && (|fmt| == 1 || (fmt[1] == '0' && |fmt| <= 3)))
      && (i.Item? ==> WellTyped(fmt[i.used..], args[i.args..]))
  }

  /** The first n characters, or all of them. */
  function Prefix(s: string, n: int): string { if n <= 0 then "" else if n < |s| then s[..n] else s }

  /** _putc and _puts append as much as fits before the last place of the buffer. */
  method Puts(s: string, a: array<char>, n: nat, bufferLen: nat) returns (n': nat)
    requires n + 1 < bufferLen <= a.Length
    modifies a
    ensures n' == n + |Prefix(s, bufferLen - 1 - n)| < bufferLen
    ensures a[..n'] == old(a[..n]) + Prefix(s, bufferLen - 1 - n) && a[n'] == '\0'
    ensures forall k :: n' < k < a.Length ==> a[k] == old(a[k])
  {
    var len := |s|;
    if bufferLen - n - 1 < len { len := bufferLen - n - 1; }
    var i := 0;
    while i < len
      invariant 0 <= i <= len && forall k :: 0 <= k < n ==> a[k] == old(a[k])
      invariant forall k :: 0 <= k < i ==> a[n + k] == s[k]
      invariant forall k :: n + i <= k < a.Length ==> a[k] == old(a[k])
    {
      a[n + i] := s[i];
      i := i + 1;
    }
    n' := n + len;
    a[n'] := '\0';
    assert a[n..n'] == s[..len];
    assert a[..n] == old(a[..n]);
    assert a[..n'] == a[..n] + a[n..n'];
  }

  method Putc(ch: char, a: array<char>, n: nat, bufferLen: nat) returns (n': nat)
    requires n < bufferLen <= a.Length
    modifies a
    ensures n' == n + |Prefix([ch], bufferLen - 1 - n)| < bufferLen
    ensures a[..n'] == old(a[..n]) + Prefix([ch], bufferLen - 1 - n) && (n' > n ==> a[n'] == '\0')
    ensures forall k :: n' < k < a.Length ==> a[k] == old(a[k])
  {
    if n + 1 >= bufferLen { return n; }
    a[n] := ch;
    n' := n + 1;
    a[n'] := '\0';
    assert a[..n'] == a[..n] + [ch] && a[..n] == old(a[..n]);
  }

  lemma {:induction false} DigitsAreFew(u: nat, radix: nat, upper: bool, k: nat, bound: nat)
    requires radix == 10 || radix == 16
    requires k >= 1 && u < bound && bound == Power(radix, k)
    ensures |Digits(u, radix, upper)| <= k
    decreases k
  {
    if u >= radix {
      assert k > 1;
      assert Power(radix, k) == radix * Power(radix, k - 1);
      DigitsAreFew(u / radix, radix, upper, k - 1, Power(radix, k - 1));
    }
  }

  function Power(b: nat, k: nat): nat { if k == 0 then 1 else b * Power(b, k - 1) }

  /** Every number fits the scratch buffer of 24 characters. */
  lemma TextIsShort(v: int, radix: nat, upper: bool, unsig: bool, pad: nat)
    requires IsInt32(v) && (radix == 10 || radix == 16) && pad <= 9
    ensures |Text(v, radix, upper, unsig, pad)| <= 11
  {
    var u := if unsig then Unsigned(v) else Magnitude(v);
    assert Power(10, 10) == 10000000000 && Power(16, 10) >= 10000000000;
    DigitsAreFew(u, radix, upper, 10, Power(radix, 10));
    ZerosReversed(pad - |Digits(u, radix, upper)|);
  }

  lemma PrefixSplit(t: string, u: string, m: int)
    ensures Prefix(t + u, m) == Prefix(t, m) + Prefix(u, m - |Prefix(t, m)|)
  {
    if m > 0 && |t| < m < |t + u| { assert (t + u)[..m] == t + u[..m - |t|]; }
    if 0 < m <= |t| { assert (t + u)[..m] == t[..m]; }
  }

  /** The switch of lines 170-199, for a conversion that has its argument. */
  method Convert(ch: char, pad: nat, arg: Arg, a: array<char>, n: nat, bufferLen: nat, ghost used: nat) returns (n': nat)
    requires n + 1 < bufferLen <= a.Length && pad <= 9 && Conversion(ch, pad, used, [arg]).Item?
    modifies a
    ensures
      var text := Conversion(ch, pad, used, [arg]).text;
      n' == n + |Prefix(text, bufferLen - 1 - n)| < bufferLen && a[..n'] == old(a[..n]) + Prefix(text, bufferLen - 1 - n) && a[n'] == '\0'
    ensures forall k :: n' < k < a.Length ==> a[k] == old(a[k])
  {
    if ch == 'u' || ch == 'd' {
      n' := PutNumber(arg.value, 10, false, ch == 'u', pad, a, n, bufferLen);
    } else if ch == 'x' || ch == 'X' {
      n' := PutNumber(arg.value, 16, ch == 'X', true, pad, a, n, bufferLen);
    } else if ch == 'c' {
      n' := Putc(AsChar(arg.value), a, n, bufferLen);
    } else if ch == 's' {
      n' := Puts(arg.text, a, n, bufferLen);
    } else {
      n' := Putc(ch, a, n, bufferLen);
    }
  }

  method PutNumber(v: int, radix: nat, upper: bool, unsig: bool, pad: nat, a: array<char>, n: nat, bufferLen: nat) returns (n': nat)
    requires IsInt32(v) && (radix == 10 || radix == 16) && pad <= 9 && n + 1 < bufferLen <= a.Length
    modifies a
    ensures
      var text := Text(v, radix, upper, unsig, pad);
      n' == n + |Prefix(text, bufferLen - 1 - n)| < bufferLen && a[..n'] == old(a[..n]) + Prefix(text, bufferLen - 1 - n) && a[n'] == '\0'
    ensures forall k :: n' < k < a.Length ==> a[k] == old(a[k])
  {
    var bf := new char[24];
    TextIsShort(v, radix, upper, unsig, pad);
    var len := MiniItoa(v, radix, upper, unsig, bf, pad);
    HeldText(bf[..], Text(v, radix, upper, unsig, pad));
    n' := Puts(bf[..len], a, n, bufferLen);
  }

  lemma HeldText(b: seq<char>, s: string)
    requires Holds(b, 0, s)
    ensures b[..|s|] == s
  {
    forall i | 0 <= i < |s| ensures b[i] == s[i] { assert b[0 + i] == s[i]; }
  }

  /** A format that stops inside a directive. */
  predicate Unfinished(f: string) { f != "" && f[0] == '%' && (|f| == 1 || (f[1] == '0' && |f| <= 3)) }

  /** The characters of a directive, lines 153-168. */
  method ReadDirective(fmt: string, p: nat, ghost args: seq<Arg>) returns (ch: char, pad: nat, p': nat, stop: bool)
    requires p < |fmt| && fmt[p] == '%'
    ensures stop <==> Unfinished(fmt[p..])
    ensures stop ==> First(fmt[p..], args).End?
    ensures !stop ==> p < p' <= |fmt| && pad <= 9 && First(fmt[p..], args) == Conversion(ch, pad, p' - p, args)
  {
    pad, p', stop, ch := 0, p + 1, false, '%';
    if p' == |fmt| { return ch, pad, p', true; }
    ch := fmt[p'];
    p' := p' + 1;
    if ch == '0' {
      if p' == |fmt| { return ch, pad, p', true; }
      pad := Width(fmt[p']);
      p' := p' + 1;
      if p' == |fmt| { return ch, pad, p', true; }
      ch := fmt[p'];
      p' := p' + 1;
    }
  }

  predicate TakesArg(ch: char) { ch == 'u' || ch == 'd' || ch == 'x' || ch == 'X' || ch == 'c' || ch == 's' }

  lemma OneArg(ch: char, pad: nat, used: nat, args: seq<Arg>, arg: Arg)
    requires Conversion(ch, pad, used, args).Item? && (args != [] ==> arg == args[0])
    ensures Conversion(ch, pad, used, args) == Conversion(ch, pad, used, [arg])
    ensures Conversion(ch, pad, used, args).args == (if TakesArg(ch) then 1 else 0) && Conversion(ch, pad, used, args).used == used
  {
  }

  /** The item at the place reached in the format. */
  ghost predicate ItemAt(fmt: string, args: seq<Arg>, p: nat, q: nat, i: Item) {
    && p < |fmt| && q <= |args|
    && forall x: Seal {:trigger Open(x)} :: Open(x) ==> i == First(fmt[p..], args[q..]) && (i.Item? || Unfinished(fmt[p..]))
  }

  lemma OpenItem(fmt: string, args: seq<Arg>, p: nat, q: nat, i: Item)
    requires ItemAt(fmt, args, p, q, i)
    ensures i == First(fmt[p..], args[q..]) && (i.Item? || Unfinished(fmt[p..]))
  {
    assert Open(Seal);
  }

  /** One turn of the loop. */
  method OneItem(a: array<char>, bufferLen: nat, fmt: string, args: seq<Arg>, n: nat, p: nat, q: nat, ghost i: Item)
    returns (n': nat, p': nat, q': nat, stop: bool)
    requires n + 1 < bufferLen <= a.Length && ItemAt(fmt, args, p, q, i)
    modifies a
    ensures forall k :: n' < k < a.Length ==> a[k] == old(a[k])
    ensures stop <==> i.End?
    ensures stop ==> n' == n && p' == p && q' == q && a[..] == old(a[..])
    ensures !stop ==>
      var m := bufferLen - 1 - n;
      && p' == p + i.used && q' == q + i.args && n' == n + |Prefix(i.text, m)| < bufferLen
      && a[..n'] == old(a[..n]) + Prefix(i.text, m) && a[n'] == '\0'
  {
    OpenItem(fmt, args, p, q, i);
    n', p', q', stop := n, p, q, false;
    if fmt[p] != '%' {
      n' := Putc(fmt[p], a, n, bufferLen);
      p' := p + 1;
    } else {
      var ch, pad;
      ch, pad, p', stop := ReadDirective(fmt, p, args[q..]);
      if stop {
        p' := p;
      } else {
        var arg := if q < |args| then args[q] else Word(0);
        OneArg(ch, pad, p' - p, args[q..], arg);
        n' := Convert(ch, pad, arg, a, n, bufferLen, p' - p);
        if TakesArg(ch) { q' := q + 1; }
      }
    }
  }

  /** What the rest of the format stands for. */
  ghost predicate RestIs(fmt: string, args: seq<Arg>, p: nat, q: nat, rest: string) {
    && p <= |fmt| && q <= |args|
    && forall x: Seal {:trigger Open(x)} :: Open(x) ==> WellTyped(fmt[p..], args[q..]) && rest == Expansion(fmt[p..], args[q..])
  }

  lemma AtStart(fmt: string, args: seq<Arg>)
    requires WellTyped(fmt, args)
    ensures RestIs(fmt, args, 0, 0, Expansion(fmt, args))
  {
    assert Open(Seal);
    assert fmt[0..] == fmt && args[0..] == args;
  }

  lemma ItemThere(fmt: string, args: seq<Arg>, p: nat, q: nat, rest: string) returns (i: Item)
    requires RestIs(fmt, args, p, q, rest) && p < |fmt|
    ensures ItemAt(fmt, args, p, q, i) && (i.End? <==> Unfinished(fmt[p..])) && (i.End? ==> rest == "")
  {
    assert Open(Seal);
    i := First(fmt[p..], args[q..]);
  }

  lemma NextRest(fmt: string, args: seq<Arg>, p: nat, q: nat, rest: string, i: Item, p': nat, q': nat) returns (rest': string)
    requires RestIs(fmt, args, p, q, rest) && ItemAt(fmt, args, p, q, i) && i.Item? && p' == p + i.used && q' == q + i.args
    ensures rest == i.text + rest' && RestIs(fmt, args, p', q', rest') && p < p'
  {
    assert Open(Seal);
    var f, r := fmt[p..], args[q..];
    assert f[i.used..] == fmt[p'..] && r[i.args..] == args[q'..];
    rest' := Expansion(f[i.used..], r[i.args..]);
  }

  lemma AtEnd(fmt: string, args: seq<Arg>, q: nat, rest: string)
    requires RestIs(fmt, args, |fmt|, q, rest)
    ensures rest == ""
  {
    assert Open(Seal);
  }

  /** What is written and the cut-off rest make up the goal, before an item and after it. */
  lemma Advance(goal: string, s: string, t: string, rest: string, m: int, s': string, m': int)
    requires goal == s + Prefix(t + rest, m) && s' == s + Prefix(t, m) && m' == m - |Prefix(t, m)|
    ensures goal == s' + Prefix(rest, m')
  {
    PrefixSplit(t, rest, m);
    Grouped(s, Prefix(t, m), Prefix(rest, m - |Prefix(t, m)|));
  }

  /** The buffer ends with a NUL at n, if anything was put, and is as before behind it. */
  ghost predicate Ending(buf: seq<char>, was: seq<char>, n: nat, put: bool) {
    && n <= |buf| == |was| && (if put then n < |buf| && buf[n] == '\0' else n == 0 && buf == was)
    && forall k :: n < k < |buf| ==> buf[k] == was[k]
  }

  /** Ending, and the goal as what is written and the cut-off rest, taken as a whole. */
  ghost predicate Halfway(buf: seq<char>, was: seq<char>, n: nat, put: bool, goal: string, rest: string, m: int) {
    n <= |buf| && forall x: Seal {:trigger Open(x)} :: Open(x) ==> Ending(buf, was, n, put) && goal == buf[..n] + Prefix(rest, m)
  }

  lemma Begins(buf: seq<char>, rest: string, m: int)
    ensures Halfway(buf, buf, 0, false, Prefix(rest, m), rest, m)
  {
    assert buf[..0] + Prefix(rest, m) == Prefix(rest, m);
  }

  lemma GoesOn(b: seq<char>, was: seq<char>, n: nat, put: bool, goal: string, t: string, rest: string, m: int, b': seq<char>, n': nat)
    requires Halfway(b, was, n, put, goal, t + rest, m) && |b'| == |b| && n' == n + |Prefix(t, m)| < |b| && b'[n'] == '\0'
    requires b'[..n'] == b[..n] + Prefix(t, m) && forall k :: n' < k < |b'| ==> b'[k] == b[k]
    ensures Halfway(b', was, n', true, goal, rest, m - |Prefix(t, m)|)
  {
    assert Open(Seal);
    Advance(goal, b[..n], t, rest, m, b'[..n'], m - |Prefix(t, m)|);
  }

  lemma Finishes(buf: seq<char>, was: seq<char>, n: nat, put: bool, goal: string, rest: string, m: int)
    requires Halfway(buf, was, n, put, goal, rest, m) && (rest == "" || m <= 0)
    ensures Ending(buf, was, n, put) && buf[..n] == goal
  {
    assert Open(Seal);
    NothingMissing(goal, buf[..n], rest, m);
  }

  /** Unfinished of the format from p on. */
  predicate UnfinishedAt(fmt: string, p: nat) {
    p < |fmt| && fmt[p] == '%' && (p + 1 == |fmt| || (fmt[p + 1] == '0' && |fmt| <= p + 3))
  }

  method NextItem(a: array<char>, bufferLen: nat, fmt: string, args: seq<Arg>, n: nat, p: nat, q: nat,
                  ghost goal: string, ghost rest: string, ghost was: seq<char>, ghost put: bool)
    returns (n': nat, p': nat, q': nat, stop: bool, ghost rest': string)
    requires p < |fmt| && n + 1 < bufferLen <= a.Length
    requires RestIs(fmt, args, p, q, rest) && Halfway(a[..], was, n, put, goal, rest, bufferLen - 1 - n)
    modifies a
    ensures n' < bufferLen && RestIs(fmt, args, p', q', rest')
    ensures stop <==> UnfinishedAt(fmt, p)
    ensures Halfway(a[..], was, n', put || !stop, goal, rest', bufferLen - 1 - n') && (if stop then rest' == "" else p < p')
  {
    ghost var b := a[..];
    ghost var i := ItemThere(fmt, args, p, q, rest);
    rest' := rest;
    n', p', q', stop := OneItem(a, bufferLen, fmt, args, n, p, q, i);
    if !stop {
      rest' := NextRest(fmt, args, p, q, rest, i, p', q');
      GoesOn(b, was, n, put, goal, i.text, rest', bufferLen - 1 - n, a[..], n');
    }
  }

  /** The loop of mini_vsnprintf, from any place of the format on: the cut-off rest is written. */
  method WriteItems(a: array<char>, bufferLen: nat, fmt: string, args: seq<Arg>, from: nat, arg: nat, ghost all: string) returns (n: nat)
    requires bufferLen <= a.Length && RestIs(fmt, args, from, arg, all)
    modifies a
    ensures Ending(a[..], old(a[..]), n, bufferLen >= 2 && from < |fmt| && !UnfinishedAt(fmt, from))
    ensures a[..n] == Prefix(all, bufferLen - 1) && (n > 0 ==> n < bufferLen)
  {
    n := 0;
    var p, q := from, arg;
    ghost var was, rest, put := a[..], all, false;
    ghost var goal := Prefix(all, bufferLen - 1);
    Begins(was, all, bufferLen - 1);
    while p < |fmt| && n + 1 < bufferLen
      invariant from <= p <= |fmt| && 0 <= q && 0 <= n <= a.Length
      invariant put == (p > from) && (put ==> bufferLen >= 2 && !UnfinishedAt(fmt, from) && n < bufferLen) && (!put ==> n == 0)
      invariant RestIs(fmt, args, p, q, rest) && Halfway(a[..], was, n, put, goal, rest, bufferLen - 1 - n)
      decreases |fmt| - p
    {
      var stop;
      n, p, q, stop, rest := NextItem(a, bufferLen, fmt, args, n, p, q, goal, rest, was, put);
      if stop { break; }
      put := true;
    }
    if p == |fmt| { AtEnd(fmt, args, q, rest); }
    Finishes(a[..], was, n, put, goal, rest, bufferLen - 1 - n);
  }

  /** mini_vsnprintf writes exactly the first bufferLen - 1 characters of the expansion and returns
      how many they are.  Behind the last one stands a NUL if and only if anything was put at all:
      with an empty format, one that stops inside its first directive, or no room for a character
      the buffer keeps what it held. */
  method MiniVsnprintf(a: array<char>, bufferLen: nat, fmt: string, args: seq<Arg>) returns (n: nat)
    requires bufferLen <= a.Length && WellTyped(fmt, args)
    modifies a
    ensures n <= a.Length && a[..n] == Prefix(Expansion(fmt, args), bufferLen - 1)
    ensures if bufferLen >= 2 && fmt != "" && !Unfinished(fmt) then n < bufferLen && a[n] == '\0'
            else n == 0 && a[..] == old(a[..])
    ensures forall k :: n < k < a.Length ==> a[k] == old(a[k])
  {
    AtStart(fmt, args);
    n := WriteItems(a, bufferLen, fmt, args, 0, 0, Expansion(fmt, args));
  }

  lemma NothingMissing(goal: string, s: string, rest: string, m: int)
    requires goal == s + Prefix(rest, m) && (rest == "" || m <= 0)
    ensures s == goal
  {
  }

  /** printk: the NUL is put in any case, so the buffer of 256 holds the cut-off expansion. */
  method Print(fmt: string, args: seq<Arg>) returns (buff: array<char>, ret: nat)
    requires WellTyped(fmt, args)
    ensures buff.Length == 256 && ret < 256 && buff[..ret] == Prefix(Expansion(fmt, args), 255) && buff[ret] == '\0'
  {
    buff := new char[256];
    ret := MiniVsnprintf(buff, 256, fmt, args);
    buff[ret] := '\0';
    assert buff[..ret] == Prefix(Expansion(fmt, args), 255);
  }
}
