/** Formatted stream input and output as the queue file uses it: decimal numbers, words between
    blanks, and what happens when they cannot be read. */
module Streams {
  import opened Characters

  const TWO_32: nat := 0x1_0000_0000

  /** Extracting from a stream in a good state: a value and what follows it (never empty, since the
      extraction stops at some character), the end of the file, or a failure that the end of the
      file did not cause. */
  datatype Read<+T> = Got(value: T, rest: string) | AtEnd | Bad

  predicate IsBlank(c: char) {
    c == ' ' || 9 <= c as nat <= 13
  }

  // ---- Numbers ----

  /** A number in decimal. */
  function Digits(n: nat): (s: string)
    ensures s != "" && AllDigits(s) && Value(s) == n
  {
    if n < 10 then
      var s := ['0' + n as char];
      assert Value(s[..0]) == 0;
      s
    else
      var s := Digits(n / 10) + ['0' + (n % 10) as char];
      assert s[..|s| - 1] == Digits(n / 10);
      s
  }

  function Value(s: string): nat
    requires AllDigits(s)
  {
    if s == "" then 0 else 10 * Value(s[..|s| - 1]) + (s[|s| - 1] - '0') as nat
  }

  /** Writing an int. */
  function PrintInt(t: int): string {
    if t < 0 then "-" + Digits(-t) else Digits(t)
  }

  function SkipBlanks(s: string): (r: string)
    ensures |r| <= |s|
  {
    if s != "" && IsBlank(s[0]) then SkipBlanks(s[1..]) else s
  }

  /** How many digits s starts with. */
  function DigitRun(s: string): (n: nat)
    ensures n <= |s| && AllDigits(s[..n])
  {
    if s != "" && IsDigit(s[0]) then
      var n := 1 + DigitRun(s[1..]);
      assert s[..n] == [s[0]] + s[1..][..n - 1];
      n
    else 0
  }

  /** Reading an unsigned of 32 bits: a negative number wraps around, a number too big fails. */
  function ReadUnsigned(s: string): (r: Read<nat>)
    ensures r.Got? ==> r.value < TWO_32 && 0 < |r.rest| < |s|
  {
    var t := SkipBlanks(s);
    var signed := t != "" && (t[0] == '-' || t[0] == '+');
    var u := if signed then t[1..] else t;
    var n := DigitRun(u);
    if n == |u| then AtEnd
    else if n == 0 then Bad
    else
      var v := Value(u[..n]);
      if v >= TWO_32 then Bad
      else Got(if signed && t[0] == '-' then (TWO_32 - v) % TWO_32 else v, u[n..])
  }

  lemma {:induction false} RunStops(a: string, rest: string)
    requires AllDigits(a) && rest != "" && !IsDigit(rest[0])
    ensures DigitRun(a + rest) == |a|
  {
    if a != "" {
      assert (a + rest)[1..] == a[1..] + rest;
      RunStops(a[1..], rest);
    }
  }

  lemma ReadsNegative(s: string, t: string, u: string, n: nat, v: nat)
    requires t == SkipBlanks(s) && t != "" && t[0] == '-' && u == t[1..] && n == DigitRun(u) && 0 < n < |u|
    requires v == Value(u[..n]) && 0 < v < TWO_32
    ensures ReadUnsigned(s) == Got(TWO_32 - v, u[n..])
  {
  }

  lemma BlankSkipped(t: string)
    requires t != "" && !IsBlank(t[0])
    ensures SkipBlanks(" " + t) == t
  {
    assert (" " + t)[1..] == t;
  }

  /** A negative number that has been written comes back wrapped around. */
  lemma NegativeWraps(n: int, rest: string)
    requires 0 < n < TWO_32 && rest != "" && IsBlank(rest[0])
    ensures ReadUnsigned(" " + (PrintInt(-n) + rest)) == Got(0x1_0000_0000 - n, rest)
  {
    var digits := Digits(n);
    var u, t := digits + rest, PrintInt(-n) + rest;
    assert t == "-" + u;
    BlankSkipped(t);
    RunStops(digits, rest);
    assert t[1..] == u && u[..|digits|] == digits && u[|digits|..] == rest;
    ReadsNegative(" " + t, t, u, |digits|, n);
  }

  /** What has been written as a number behind a blank reads back, modulo the width. */
  lemma NumberReadsBack(n: nat, rest: string)
    requires rest != "" && IsBlank(rest[0])
    ensures ReadUnsigned(" " + (Digits(n) + rest)) == if n < TWO_32 then Got(n, rest) else Bad
  {
    var u := Digits(n) + rest;
    var s := " " + u;
    assert s[1..] == u;
    assert SkipBlanks(s) == u;
    RunStops(Digits(n), rest);
    assert u[..|Digits(n)|] == Digits(n) && u[|Digits(n)|..] == rest;
  }

  // ---- Words ----

  ghost predicate IsWord(w: string) {
    w != "" && forall i :: 0 <= i < |w| ==> !IsBlank(w[i])
  }

  /** How many characters of a word s starts with. */
  function WordRun(s: string): (n: nat)
    ensures n <= |s|
    ensures forall i :: 0 <= i < n ==> !IsBlank(s[i])
    ensures n < |s| ==> IsBlank(s[n])
  {
    if s != "" && !IsBlank(s[0]) then 1 + WordRun(s[1..]) else 0
  }

  lemma {:induction false} SkipsToWord(s: string)
    ensures var t := SkipBlanks(s); t != "" ==> !IsBlank(t[0])
  {
    if s != "" && IsBlank(s[0]) {
      SkipsToWord(s[1..]);
    }
  }

  /** Reading a string. */
  function ReadWord(s: string): (r: Read<string>)
    ensures r != Bad
    ensures r.Got? ==> IsWord(r.value) && 0 < |r.rest| < |s|
  {
    var t := SkipBlanks(s);
    var n := WordRun(t);
    SkipsToWord(s);
    if n == |t| then AtEnd else Got(t[..n], t[n..])
  }

  lemma {:induction false} WordStops(w: string, rest: string)
    requires (forall i :: 0 <= i < |w| ==> !IsBlank(w[i])) && rest != "" && IsBlank(rest[0])
    ensures WordRun(w + rest) == |w|
  {
    if w != "" {
      assert (w + rest)[1..] == w[1..] + rest;
      WordStops(w[1..], rest);
    }
  }

  lemma WordReadsBack(w: string, rest: string)
    requires IsWord(w) && rest != "" && IsBlank(rest[0])
    ensures ReadWord(w + rest) == Got(w, rest)
    ensures ReadWord(" " + (w + rest)) == Got(w, rest)
  {
    var t := w + rest;
    WordStops(w, rest);
    assert t[..|w|] == w && t[|w|..] == rest;
    assert SkipBlanks(t) == t;
    assert (" " + t)[1..] == t;
    assert SkipBlanks(" " + t) == t;
  }

  // ---- Lines and text ----

  /** while (peek() == '\n') get() */
  function SkipNewlines(s: string): (r: string)
    ensures |r| <= |s|
    ensures r != "" ==> r[0] != '\n'
    ensures s == "" || s[0] != '\n' ==> r == s
  {
    if s != "" && s[0] == '\n' then SkipNewlines(s[1..]) else s
  }

  /** get(buffer, limit + 1, NUL): the characters it stores. */
  function Chunk(s: string, limit: nat): (n: nat)
    ensures n <= limit && n <= |s|
    ensures forall i :: 0 <= i < n ==> s[i] as nat != 0
    ensures n < limit && n < |s| ==> s[n] as nat == 0
  {
    if limit == 0 || s == "" || s[0] as nat == 0 then 0 else 1 + Chunk(s[1..], limit - 1)
  }

  // ---- What is left of a stream ----

  ghost predicate IsSuffix(a: string, s: string) {
    |a| <= |s| && s[|s| - |a|..] == a
  }

  lemma SuffixOfSuffix(a: string, b: string, s: string)
    requires IsSuffix(a, b) && IsSuffix(b, s)
    ensures IsSuffix(a, s)
  {
    assert s[|s| - |a|..] == s[|s| - |b|..][|b| - |a|..];
  }

  lemma DropIsSuffix(s: string, n: nat)
    requires n <= |s|
    ensures IsSuffix(s[n..], s)
  {
  }

  lemma {:induction false} BlanksLeaveSuffix(s: string)
    ensures IsSuffix(SkipBlanks(s), s)
  {
    if s != "" && IsBlank(s[0]) {
      BlanksLeaveSuffix(s[1..]);
      DropIsSuffix(s, 1);
      SuffixOfSuffix(SkipBlanks(s), s[1..], s);
    }
  }

  lemma {:induction false} NewlinesLeaveSuffix(s: string)
    ensures IsSuffix(SkipNewlines(s), s)
  {
    if s != "" && s[0] == '\n' {
      NewlinesLeaveSuffix(s[1..]);
      DropIsSuffix(s, 1);
      SuffixOfSuffix(SkipNewlines(s), s[1..], s);
    }
  }

  lemma NumberLeavesSuffix(s: string)
    ensures var r := ReadUnsigned(s); r.Got? ==> IsSuffix(r.rest, s)
  {
    var t := SkipBlanks(s);
    BlanksLeaveSuffix(s);
    var r := ReadUnsigned(s);
    if r.Got? {
      var k := |t| - |r.rest|;
      assert r.rest == t[k..];
      DropIsSuffix(t, k);
      SuffixOfSuffix(r.rest, t, s);
    }
  }

  lemma WordLeavesSuffix(s: string)
    ensures var r := ReadWord(s); r.Got? ==> IsSuffix(r.rest, s)
  {
    var t := SkipBlanks(s);
    BlanksLeaveSuffix(s);
    DropIsSuffix(t, WordRun(t));
    if ReadWord(s).Got? {
      SuffixOfSuffix(t[WordRun(t)..], t, s);
    }
  }

  ghost predicate NoNul(s: string) {
    forall i :: 0 <= i < |s| ==> s[i] as nat != 0
  }

  lemma SuffixNoNul(a: string, s: string)
    requires IsSuffix(a, s) && NoNul(s)
    ensures NoNul(a)
  {
    forall i | 0 <= i < |a|
      ensures a[i] as nat != 0
    {
      assert a[i] == s[|s| - |a| + i];
    }
  }
}
