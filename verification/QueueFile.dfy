/** The file that keeps the queue over a restart: save_queue_to_file and read_queue_from_file. */
module QueueFile {
  import opened Characters
  import opened Streams

  /** What the file keeps of a queued message. */
  datatype Entry = Entry(state: nat, time: int, address: string, text: string, msToSc: bool, needRepack: bool)

  /** What the reader asks of other code: which address words can be parsed, and whether a buffer of so
      many bytes that starts with this text and then, if it is longer, a NUL, is a valid SIP request. */
  datatype Checks = Checks(parses: string -> bool, accepts: (string, nat) -> bool)

  function Flag(b: bool): nat {
    if b then 1 else 0
  }

  // ---- Saving ----

  /** A record from its text on, with what follows it in the file; and so forth backwards. */
  function FromText(e: Entry, tail: string): string {
    "\n" + (e.text + ("\n\n" + tail))
  }

  function FromFlags(e: Entry, tail: string): string {
    " " + (Digits(Flag(e.msToSc)) + (" " + (Digits(Flag(e.needRepack)) + FromText(e, tail))))
  }

  function FromAddress(e: Entry, tail: string): string {
    " " + (e.address + (" " + (Digits(|e.text|) + FromFlags(e, tail))))
  }

  function FromState(e: Entry, tail: string): string {
    " " + (Digits(e.state) + (" " + (PrintInt(e.time) + FromAddress(e, tail))))
  }

  /** One record: state, time, address, text length, direction and repacking flag, and the text. */
  function Record(e: Entry): string {
    "===" + FromState(e, "")
  }

  lemma Flat(a: string, b: string, c: string, d: string, x: string)
    ensures a + (b + (c + (d + x))) == a + b + c + d + x
  {
  }

  /** A record is one line of numbers and words between blanks, and the text. */
  lemma RecordLines(e: Entry)
    ensures var numbers := " " + Digits(e.state) + " " + PrintInt(e.time);
            var words := " " + e.address + " " + Digits(|e.text|);
            var flags := " " + (if e.msToSc then "1" else "0") + " " + (if e.needRepack then "1" else "0");
            Record(e) == "===" + numbers + words + flags + ("\n" + e.text + "\n\n")
  {
    var numbers := " " + Digits(e.state) + " " + PrintInt(e.time);
    var words := " " + e.address + " " + Digits(|e.text|);
    var flags := " " + Digits(Flag(e.msToSc)) + " " + Digits(Flag(e.needRepack));
    var text := "\n" + e.text + "\n\n";
    assert FromText(e, "") == text by { Flat("\n", e.text, "\n\n", "", ""); }
    assert FromFlags(e, "") == flags + text by {
      Flat(" ", Digits(Flag(e.msToSc)), " ", Digits(Flag(e.needRepack)), text);
    }
    assert FromAddress(e, "") == words + (flags + text) by {
      Flat(" ", e.address, " ", Digits(|e.text|), flags + text);
    }
    assert FromState(e, "") == numbers + (words + (flags + text)) by {
      Flat(" ", Digits(e.state), " ", PrintInt(e.time), words + (flags + text));
    }
    Flat("===", numbers, words, flags, text);
  }

  /** The whole file, the last entry first. */
  function Save(q: seq<Entry>): string {
    if q == [] then "" else Save(q[1..]) + Record(q[0])
  }

  lemma Assoc<T>(a: seq<T>, b: seq<T>, c: seq<T>)
    ensures (a + b) + c == a + (b + c)
  {
  }

  lemma {:induction false} SaveConcat(a: seq<Entry>, b: seq<Entry>)
    ensures Save(a + b) == Save(b) + Save(a)
  {
    if a == [] {
      assert a + b == b;
      assert Save(b) + "" == Save(b);
    } else {
      assert (a + b)[1..] == a[1..] + b;
      SaveConcat(a[1..], b);
      Assoc(Save(b), Save(a[1..]), Record(a[0]));
    }
  }

  /** save_queue_to_file */
  method SaveQueue(q: seq<Entry>) returns (file: string)
    ensures file == Save(q)
  {
    file := "";
    var x: nat := |q|;
    while x > 0
      invariant x <= |q| && file == Save(q[x..])
    {
      x := x - 1;
      assert q[x..][1..] == q[x + 1..];
      file := file + Record(q[x]);
    }
    assert q[0..] == q;
  }

  // ---- Reading ----

  /** One pass of the reading loop. A stream that has failed without being at its end stays that way
      and gives nothing any more, so that the loop, which only looks for the end, never ends. */
  datatype Pass =
    | EndOfFile
    | NeverEnds
    | Read(e: Entry, kept: bool, rest: string)

  /** The text of a record, behind its numbers. */
  function ReadText(checks: Checks, e: Entry, length: nat, s: string): (p: Pass)
    ensures p.Read? ==> |p.rest| < |s|
  {
    var t := SkipNewlines(s);
    if t == "" then EndOfFile
    else
      // The buffer size is computed in 32 bits.
      var n := Chunk(t, if length == TWO_32 - 1 then 0 else length);
      if n == 0 then NeverEnds
      else
        var text := t[..n];
        Read(e.(text := text), checks.parses(e.address) && checks.accepts(text, length), SkipNewlines(t[n..]))
  }

  function ReadFlags(checks: Checks, e: Entry, length: nat, s: string): (p: Pass)
    ensures p.Read? ==> |p.rest| < |s|
  {
    match ReadUnsigned(s)
    case AtEnd => EndOfFile
    case Bad => NeverEnds
    case Got(msToSc, s1) =>
      match ReadUnsigned(s1)
      case AtEnd => EndOfFile
      case Bad => NeverEnds
      case Got(needRepack, s2) => ReadText(checks, e.(msToSc := msToSc != 0, needRepack := needRepack != 0), length, s2)
  }

  function ReadAddress(checks: Checks, e: Entry, s: string): (p: Pass)
    ensures p.Read? ==> |p.rest| < |s|
  {
    match ReadWord(s)
    case AtEnd => EndOfFile
    case Bad => NeverEnds
    case Got(address, s1) =>
      match ReadUnsigned(s1)
      case AtEnd => EndOfFile
      case Bad => NeverEnds
      case Got(length, s2) => ReadFlags(checks, e.(address := address), length, s2)
  }

  function ReadNumbers(checks: Checks, s: string): (p: Pass)
    ensures p.Read? ==> |p.rest| < |s|
  {
    match ReadUnsigned(s)
    case AtEnd => EndOfFile
    case Bad => NeverEnds
    case Got(state, s1) =>
      match ReadUnsigned(s1)
      case AtEnd => EndOfFile
      case Bad => NeverEnds
      case Got(time, s2) => ReadAddress(checks, Entry(state, time, "", "", false, false), s2)
  }

  function ReadRecord(checks: Checks, s: string): (p: Pass)
    ensures p.Read? ==> |p.rest| < |s|
  {
    match ReadWord(s)
    case AtEnd => EndOfFile
    case Bad => NeverEnds
    case Got(equals, s1) => if equals != "===" then EndOfFile else ReadNumbers(checks, s1)
  }

  datatype Loaded = Done(q: seq<Entry>) | Hangs

  /** read_queue_from_file into the queue q: every kept record goes to the front. */
  function Load(checks: Checks, s: string, q: seq<Entry>): Loaded
    decreases |s|
  {
    match ReadRecord(checks, s)
    case EndOfFile => Done(q)
    case NeverEnds => Hangs
    case Read(e, kept, rest) => Load(checks, rest, if kept then [e] + q else q)
  }

  method ReadQueue(checks: Checks, file: string, q0: seq<Entry>) returns (r: Loaded)
    ensures r == Load(checks, file, q0)
  {
    var q, s := q0, file;
    while true
      invariant Load(checks, file, q0) == Load(checks, s, q)
      decreases |s|
    {
      var pass := ReadRecord(checks, s);
      match pass {
        case EndOfFile => return Done(q);
        case NeverEnds => return Hangs;
        case Read(e, kept, rest) =>
          if kept {
            q := [e] + q;
          }
          s := rest;
      }
    }
  }

  // ---- Round trip ----

  /** The texts that survive: not empty, not starting with a newline, free of NULs. */
  ghost predicate KeepsText(text: string) {
    text != "" && text[0] != '\n' && |text| < TWO_32 - 1 && NoNul(text)
  }

  ghost predicate NumbersInRange(e: Entry) {
    e.state < TWO_32 && 0 <= e.time < TWO_32
  }

  /** Fields in the ranges of the reader, and an address it can parse. */
  ghost predicate InRange(checks: Checks, e: Entry) {
    && NumbersInRange(e)
    && IsWord(e.address) && checks.parses(e.address)
    && KeepsText(e.text)
  }

  /** The entries that can be restored. */
  ghost predicate Restorable(checks: Checks, e: Entry) {
    InRange(checks, e) && checks.accepts(e.text, |e.text|)
  }

  ghost predicate AllRestorable(checks: Checks, q: seq<Entry>) {
    forall i :: 0 <= i < |q| ==> Restorable(checks, q[i])
  }

  lemma Nest(a: string, b: string, c: string, d: string, x: string, tail: string)
    ensures (a + (b + (c + (d + x)))) + tail == a + (b + (c + (d + (x + tail))))
  {
  }

  lemma Nest2(a: string, b: string, x: string, tail: string)
    ensures (a + (b + (x + ""))) + tail == a + (b + (x + tail))
  {
  }

  /** A record in a file is the record with the rest of the file behind it. */
  lemma RecordThenTail(e: Entry, tail: string)
    ensures Record(e) + tail == "===" + FromState(e, tail)
  {
    var t, f, a := FromText(e, ""), FromFlags(e, ""), FromAddress(e, "");
    assert t + tail == FromText(e, tail) by { Nest2("\n", e.text, "\n\n", tail); }
    assert f + tail == FromFlags(e, tail) by {
      Nest(" ", Digits(Flag(e.msToSc)), " ", Digits(Flag(e.needRepack)), t, tail);
    }
    assert a + tail == FromAddress(e, tail) by { Nest(" ", e.address, " ", Digits(|e.text|), f, tail); }
    assert FromState(e, "") + tail == FromState(e, tail) by {
      Nest(" ", Digits(e.state), " ", PrintInt(e.time), a, tail);
    }
    Assoc("===", FromState(e, ""), tail);
  }

  lemma ChunkIsText(text: string, rest: string)
    requires forall i :: 0 <= i < |text| ==> text[i] as nat != 0
    ensures Chunk(text + rest, |text|) == |text|
  {
    assert forall i :: 0 <= i < |text| ==> (text + rest)[i] == text[i];
  }

  lemma TextReadsBack(checks: Checks, e: Entry, was: Entry, tail: string)
    requires KeepsText(e.text) && (tail == "" || tail[0] != '\n')
    ensures ReadText(checks, was, |e.text|, FromText(e, tail))
            == Read(was.(text := e.text), checks.parses(was.address) && checks.accepts(e.text, |e.text|), tail)
  {
    var s := FromText(e, tail);
    var t := e.text + ("\n\n" + tail);
    assert s[1..] == t;
    assert SkipNewlines(s) == t;
    ChunkIsText(e.text, "\n\n" + tail);
    assert t[..|e.text|] == e.text && t[|e.text|..] == "\n\n" + tail;
    assert ("\n\n" + tail)[1..] == "\n" + tail;
    assert ("\n" + tail)[1..] == tail;
    assert SkipNewlines("\n" + tail) == tail;
  }

  lemma FlagsReadBack(checks: Checks, e: Entry, was: Entry, tail: string)
    requires KeepsText(e.text) && (tail == "" || tail[0] != '\n')
    ensures ReadFlags(checks, was, |e.text|, FromFlags(e, tail))
            == Read(was.(msToSc := e.msToSc, needRepack := e.needRepack, text := e.text),
                    checks.parses(was.address) && checks.accepts(e.text, |e.text|), tail)
  {
    NumberReadsBack(Flag(e.msToSc), " " + (Digits(Flag(e.needRepack)) + FromText(e, tail)));
    NumberReadsBack(Flag(e.needRepack), FromText(e, tail));
    TextReadsBack(checks, e, was.(msToSc := e.msToSc, needRepack := e.needRepack), tail);
  }

  lemma AddressReadsBack(checks: Checks, e: Entry, was: Entry, tail: string)
    requires KeepsText(e.text) && IsWord(e.address) && (tail == "" || tail[0] != '\n')
    ensures ReadAddress(checks, was, FromAddress(e, tail))
            == Read(Entry(was.state, was.time, e.address, e.text, e.msToSc, e.needRepack),
                    checks.parses(e.address) && checks.accepts(e.text, |e.text|), tail)
  {
    WordReadsBack(e.address, " " + (Digits(|e.text|) + FromFlags(e, tail)));
    NumberReadsBack(|e.text|, FromFlags(e, tail));
    FlagsReadBack(checks, e, was.(address := e.address), tail);
  }

  /** A saved record reads back as the entry, up to the next record. */
  lemma RecordReadsBack(checks: Checks, e: Entry, tail: string)
    requires Restorable(checks, e) && (tail == "" || tail[0] != '\n')
    ensures ReadRecord(checks, Record(e) + tail) == Read(e, true, tail)
  {
    RecordThenTail(e, tail);
    assert IsWord("===");
    WordReadsBack("===", FromState(e, tail));
    NumberReadsBack(e.state, " " + (PrintInt(e.time) + FromAddress(e, tail)));
    NumberReadsBack(e.time, FromAddress(e, tail));
    AddressReadsBack(checks, e, Entry(e.state, e.time, "", "", false, false), tail);
  }

  lemma RecordLoads(checks: Checks, e: Entry, tail: string, q: seq<Entry>)
    requires Restorable(checks, e) && (tail == "" || tail[0] != '\n')
    ensures Load(checks, Record(e) + tail, q) == Load(checks, tail, [e] + q)
  {
    RecordReadsBack(checks, e, tail);
  }

  lemma StartsRecord(e: Entry, tail: string)
    ensures Record(e) + tail != "" && (Record(e) + tail)[0] == '='
  {
  }

  lemma HeadAndRest<T>(q: seq<T>)
    requires q != []
    ensures [q[0]] + q[1..] == q
  {
  }

  lemma {:induction false} SavedLoads(checks: Checks, q: seq<Entry>, tail: string, q0: seq<Entry>)
    requires AllRestorable(checks, q) && (tail == "" || tail[0] != '\n')
    ensures Load(checks, Save(q) + tail, q0) == Load(checks, tail, q + q0)
  {
    if q == [] {
      assert Save(q) + tail == tail && q + q0 == q0;
    } else {
      Assoc(Save(q[1..]), Record(q[0]), tail);
      StartsRecord(q[0], tail);
      SavedLoads(checks, q[1..], Record(q[0]) + tail, q0);
      RecordLoads(checks, q[0], tail, q[1..] + q0);
      HeadAndRest(q);
      Assoc([q[0]], q[1..], q0);
    }
  }

  // ---- Only restorable entries come back ----

  /** What a kept record can be: a whole one, or, at the very end of the file, one whose text has run
      into that end. */
  ghost predicate WholeOrLast(checks: Checks, e: Entry, rest: string, s: string) {
    InRange(checks, e) && (Restorable(checks, e) || (rest == "" && IsSuffix(e.text, s)))
  }

  lemma LastIn(checks: Checks, e: Entry, rest: string, s: string, whole: string)
    requires WholeOrLast(checks, e, rest, s) && IsSuffix(s, whole)
    ensures WholeOrLast(checks, e, rest, whole)
  {
    if IsSuffix(e.text, s) {
      SuffixOfSuffix(e.text, s, whole);
    }
  }

  /** A chunk of a stream that does not start with a newline is a text that survives. */
  lemma ChunkKeeps(t: string, limit: nat, n: nat)
    requires NoNul(t) && t != "" && t[0] != '\n' && n == Chunk(t, limit) > 0 && limit < TWO_32 - 1
    ensures KeepsText(t[..n]) && (n == limit || n == |t|)
  {
  }

  lemma TextKept(checks: Checks, e: Entry, length: nat, s: string)
    requires NoNul(s) && NumbersInRange(e) && IsWord(e.address) && length < TWO_32
    ensures var p := ReadText(checks, e, length, s);
            p.Read? && p.kept ==> WholeOrLast(checks, p.e, p.rest, s)
  {
    var t := SkipNewlines(s);
    var p := ReadText(checks, e, length, s);
    if p.Read? && p.kept {
      var limit := if length == TWO_32 - 1 then 0 else length;
      var n := Chunk(t, limit);
      NewlinesLeaveSuffix(s);
      SuffixNoNul(t, s);
      ChunkKeeps(t, limit, n);
      ChunkKept(checks, e, length, t, n, s);
    }
  }

  lemma ChunkKept(checks: Checks, e: Entry, length: nat, t: string, n: nat, s: string)
    requires NumbersInRange(e) && IsWord(e.address) && checks.parses(e.address)
    requires n <= |t| && KeepsText(t[..n]) && checks.accepts(t[..n], length) && IsSuffix(t, s)
    requires n == length || n == |t|
    ensures WholeOrLast(checks, e.(text := t[..n]), SkipNewlines(t[n..]), s)
  {
    if n == |t| {
      assert t[..n] == t && t[n..] == "";
    }
  }

  lemma FlagsKept(checks: Checks, e: Entry, length: nat, s: string)
    requires NoNul(s) && NumbersInRange(e) && IsWord(e.address) && length < TWO_32
    ensures var p := ReadFlags(checks, e, length, s);
            p.Read? && p.kept ==> WholeOrLast(checks, p.e, p.rest, s)
  {
    var a := ReadUnsigned(s);
    if a.Got? {
      NumberLeavesSuffix(s);
      SuffixNoNul(a.rest, s);
      var b := ReadUnsigned(a.rest);
      if b.Got? {
        NumberLeavesSuffix(a.rest);
        SuffixNoNul(b.rest, a.rest);
        SuffixOfSuffix(b.rest, a.rest, s);
        var with := e.(msToSc := a.value != 0, needRepack := b.value != 0);
        TextKept(checks, with, length, b.rest);
        var p := ReadText(checks, with, length, b.rest);
        if p.Read? && p.kept {
          LastIn(checks, p.e, p.rest, b.rest, s);
        }
      }
    }
  }

  lemma AddressKept(checks: Checks, e: Entry, s: string)
    requires NoNul(s) && NumbersInRange(e)
    ensures var p := ReadAddress(checks, e, s);
            p.Read? && p.kept ==> WholeOrLast(checks, p.e, p.rest, s)
  {
    var a := ReadWord(s);
    if a.Got? {
      WordLeavesSuffix(s);
      SuffixNoNul(a.rest, s);
      var b := ReadUnsigned(a.rest);
      if b.Got? {
        NumberLeavesSuffix(a.rest);
        SuffixNoNul(b.rest, a.rest);
        SuffixOfSuffix(b.rest, a.rest, s);
        FlagsKept(checks, e.(address := a.value), b.value, b.rest);
        var p := ReadFlags(checks, e.(address := a.value), b.value, b.rest);
        if p.Read? && p.kept {
          LastIn(checks, p.e, p.rest, b.rest, s);
        }
      }
    }
  }

  lemma NumbersKept(checks: Checks, s: string)
    requires NoNul(s)
    ensures var p := ReadNumbers(checks, s);
            p.Read? && p.kept ==> WholeOrLast(checks, p.e, p.rest, s)
  {
    var a := ReadUnsigned(s);
    if a.Got? {
      NumberLeavesSuffix(s);
      SuffixNoNul(a.rest, s);
      var b := ReadUnsigned(a.rest);
      if b.Got? {
        NumberLeavesSuffix(a.rest);
        SuffixNoNul(b.rest, a.rest);
        SuffixOfSuffix(b.rest, a.rest, s);
        var e := Entry(a.value, b.value, "", "", false, false);
        AddressKept(checks, e, b.rest);
        var p := ReadAddress(checks, e, b.rest);
        if p.Read? && p.kept {
          LastIn(checks, p.e, p.rest, b.rest, s);
        }
      }
    }
  }

  lemma RecordKept(checks: Checks, s: string)
    requires NoNul(s)
    ensures var p := ReadRecord(checks, s);
            p.Read? && p.kept ==> WholeOrLast(checks, p.e, p.rest, s)
  {
    var w := ReadWord(s);
    if w.Got? {
      WordLeavesSuffix(s);
      SuffixNoNul(w.rest, s);
      NumbersKept(checks, w.rest);
      var p := ReadNumbers(checks, w.rest);
      if p.Read? && p.kept {
        LastIn(checks, p.e, p.rest, w.rest, s);
      }
    }
  }

  lemma RecordLeavesSuffix(checks: Checks, s: string)
    requires ReadRecord(checks, s).Read?
    ensures IsSuffix(ReadRecord(checks, s).rest, s)
  {
    WordLeavesSuffix(s);
    var s1 := ReadWord(s).rest;
    NumberLeavesSuffix(s1);
    var s2 := ReadUnsigned(s1).rest;
    SuffixOfSuffix(s2, s1, s);
    NumberLeavesSuffix(s2);
    var s3 := ReadUnsigned(s2).rest;
    SuffixOfSuffix(s3, s2, s);
    WordLeavesSuffix(s3);
    var s4 := ReadWord(s3).rest;
    SuffixOfSuffix(s4, s3, s);
    NumberLeavesSuffix(s4);
    var s5 := ReadUnsigned(s4).rest;
    SuffixOfSuffix(s5, s4, s);
    NumberLeavesSuffix(s5);
    var s6 := ReadUnsigned(s5).rest;
    SuffixOfSuffix(s6, s5, s);
    NumberLeavesSuffix(s6);
    var s7 := ReadUnsigned(s6).rest;
    SuffixOfSuffix(s7, s6, s);
    TextLeavesSuffix(s7, ReadRecord(checks, s).rest);
    SuffixOfSuffix(ReadRecord(checks, s).rest, s7, s);
  }

  lemma TextLeavesSuffix(s: string, rest: string)
    requires exists n: nat :: n <= |SkipNewlines(s)| && rest == SkipNewlines(SkipNewlines(s)[n..])
    ensures IsSuffix(rest, s)
  {
    var t := SkipNewlines(s);
    var n: nat :| n <= |t| && rest == SkipNewlines(t[n..]);
    NewlinesLeaveSuffix(s);
    DropIsSuffix(t, n);
    NewlinesLeaveSuffix(t[n..]);
    SuffixOfSuffix(rest, t[n..], t);
    SuffixOfSuffix(rest, t, s);
  }

  /** The queue r is q with entries in front of it that are restorable, the frontmost one perhaps only
      because it has run into the end of the file. */
  ghost predicate Grown(checks: Checks, s: string, q: seq<Entry>, r: seq<Entry>) {
    && |r| >= |q| && r[|r| - |q|..] == q
    && (forall i :: 0 < i < |r| - |q| ==> Restorable(checks, r[i]))
    && (|r| > |q| ==> InRange(checks, r[0]) && (Restorable(checks, r[0]) || IsSuffix(r[0].text, s)))
  }

  lemma GrownByOne(checks: Checks, s: string, e: Entry, rest: string, q: seq<Entry>, r: seq<Entry>)
    requires WholeOrLast(checks, e, rest, s) && Grown(checks, rest, [e] + q, r) && IsSuffix(rest, s)
    requires rest == "" ==> r == [e] + q
    ensures Grown(checks, s, q, r)
  {
    var n: nat := |r| - |q| - 1;
    assert r[n..] == [e] + q;
    assert r[n + 1..] == r[n..][1..] == q;
    assert r[n] == r[n..][0] == e;
    if n > 0 {
      assert rest != "";
      if IsSuffix(r[0].text, rest) {
        SuffixOfSuffix(r[0].text, rest, s);
      }
    }
  }

  lemma GrownFurther(checks: Checks, s: string, rest: string, q: seq<Entry>, r: seq<Entry>)
    requires Grown(checks, rest, q, r) && IsSuffix(rest, s)
    ensures Grown(checks, s, q, r)
  {
    if |r| > |q| && IsSuffix(r[0].text, rest) {
      SuffixOfSuffix(r[0].text, rest, s);
    }
  }

  /** Whatever the file, as long as it has no NUL, reading it puts entries in front of the queue that
      could have been saved, and changes nothing behind them. Only a text at the very end of the file
      may be shorter than the parser was told. */
  lemma {:induction false} LoadsOnlyRestorable(checks: Checks, s: string, q: seq<Entry>)
    requires NoNul(s)
    ensures var r := Load(checks, s, q); r.Done? ==> Grown(checks, s, q, r.q)
    decreases |s|
  {
    var pass := ReadRecord(checks, s);
    if pass.Read? {
      var r := Load(checks, s, q);
      RecordLeavesSuffix(checks, s);
      SuffixNoNul(pass.rest, s);
      if pass.kept {
        LoadsOnlyRestorable(checks, pass.rest, [pass.e] + q);
        RecordKept(checks, s);
        NothingBehind(checks, [pass.e] + q);
        if r.Done? {
          GrownByOne(checks, s, pass.e, pass.rest, q, r.q);
        }
      } else {
        LoadsOnlyRestorable(checks, pass.rest, q);
        if r.Done? {
          GrownFurther(checks, s, pass.rest, q, r.q);
        }
      }
    }
  }

  lemma NothingBehind(checks: Checks, q: seq<Entry>)
    ensures Load(checks, "", q) == Done(q)
  {
  }

  /** A text that starts with something else than a newline is not what the file ends with, because
      two newlines follow it there. */
  lemma NotItsOwnEnd(text: string, front: string)
    requires text != "" && text[0] != '\n'
    ensures !IsSuffix(text, front + (text + "\n\n"))
  {
    var s := front + (text + "\n\n");
    if IsSuffix(text, s) {
      forall i | 0 <= i < |text|
        ensures text[i] == (text + "\n\n")[i + 2]
      {
        assert text[i] == s[|s| - |text| + i];
      }
      AllNewlines(text, 0);
    }
  }

  lemma {:induction false} AllNewlines(text: string, i: nat)
    requires i < |text| && forall k :: 0 <= k < |text| ==> text[k] == (text + "\n\n")[k + 2]
    ensures text[i] == '\n'
    decreases |text| - i
  {
    assert text[i] == (text + "\n\n")[i + 2];
    if i + 2 < |text| {
      AllNewlines(text, i + 2);
    }
  }

  /** A file ends with the text of the front entry and two newlines. */
  lemma FileEnd(q: seq<Entry>) returns (front: string)
    requires q != []
    ensures Save(q) == front + (q[0].text + "\n\n")
  {
    var e := q[0];
    var end := e.text + "\n\n";
    var flags := " " + Digits(Flag(e.msToSc)) + (" " + Digits(Flag(e.needRepack))) + "\n";
    var address := " " + e.address + (" " + Digits(|e.text|));
    var state := "===" + (" " + Digits(e.state) + (" " + PrintInt(e.time)));
    assert FromText(e, "") == "\n" + end;
    Regroup(" ", Digits(Flag(e.msToSc)), " ", Digits(Flag(e.needRepack)), "\n" + end);
    Assoc(" " + Digits(Flag(e.msToSc)) + (" " + Digits(Flag(e.needRepack))), "\n", end);
    assert FromFlags(e, "") == flags + end;
    Regroup(" ", e.address, " ", Digits(|e.text|), flags + end);
    Assoc(address, flags, end);
    assert FromAddress(e, "") == (address + flags) + end;
    Regroup(" ", Digits(e.state), " ", PrintInt(e.time), (address + flags) + end);
    Assoc("===", " " + Digits(e.state) + (" " + PrintInt(e.time)), (address + flags) + end);
    Assoc(state, address + flags, end);
    assert Record(e) == (state + (address + flags)) + end;
    front := Save(q[1..]) + (state + (address + flags));
    Assoc(Save(q[1..]), state + (address + flags), end);
  }

  lemma Regroup(a: string, b: string, c: string, d: string, x: string)
    ensures a + (b + (c + (d + x))) == (a + b + (c + d)) + x
  {
  }

  /** Texts and addresses are C strings. */
  ghost predicate CStrings(q: seq<Entry>) {
    forall i :: 0 <= i < |q| ==> NoNul(q[i].text) && NoNul(q[i].address)
  }

  lemma NumberNoNul(n: nat)
    ensures NoNul(Digits(n))
  {
    assert AllDigits(Digits(n));
  }

  lemma FourNoNul(a: string, b: string, c: string, d: string)
    requires NoNul(a) && NoNul(b) && NoNul(c) && NoNul(d)
    ensures NoNul(" " + (a + (" " + (b + (c + d)))))
  {
  }

  lemma RecordNoNul(e: Entry)
    requires NoNul(e.text) && NoNul(e.address)
    ensures NoNul(Record(e))
  {
    NumberNoNul(e.state);
    NumberNoNul(|e.text|);
    NumberNoNul(Flag(e.msToSc));
    NumberNoNul(Flag(e.needRepack));
    NumberNoNul(if e.time < 0 then -e.time else e.time);
    var text, flags, address := FromText(e, ""), FromFlags(e, ""), FromAddress(e, "");
    var none := "";
    assert NoNul(text);
    FourNoNul(Digits(Flag(e.msToSc)), Digits(Flag(e.needRepack)), none, text);
    assert none + text == text;
    FourNoNul(e.address, Digits(|e.text|), none, flags);
    assert none + flags == flags;
    FourNoNul(Digits(e.state), PrintInt(e.time), none, address);
    assert none + address == address;
  }

  lemma {:induction false} FileNoNul(q: seq<Entry>)
    requires CStrings(q)
    ensures NoNul(Save(q))
  {
    if q != [] {
      FileNoNul(q[1..]);
      RecordNoNul(q[0]);
    }
  }

  /** Save and load: a saved queue comes back in front of the queue it is read into, entry by entry
      in the same order, exactly when every entry can be restored. */
  lemma SaveThenLoad(checks: Checks, q: seq<Entry>, q0: seq<Entry>)
    requires CStrings(q)
    ensures Load(checks, Save(q), q0) == Done(q + q0) <==> AllRestorable(checks, q)
  {
    if AllRestorable(checks, q) {
      SavedLoads(checks, q, "", q0);
      assert Save(q) + "" == Save(q);
    }
    if q != [] && Load(checks, Save(q), q0) == Done(q + q0) {
      FileNoNul(q);
      LoadsOnlyRestorable(checks, Save(q), q0);
      var front := FileEnd(q);
      assert (q + q0)[0] == q[0];
      NotItsOwnEnd(q[0].text, front);
      forall i | 0 <= i < |q|
        ensures Restorable(checks, q[i])
      {
        assert (q + q0)[i] == q[i];
      }
    }
  }

  /** A time of 33 bits or more, such as a present day in milliseconds, is written in full but cannot
      be read: from the first such record on the reader never ends, whatever comes behind it. */
  lemma LateTimeHangs(checks: Checks, a: seq<Entry>, e: Entry, b: seq<Entry>, q0: seq<Entry>)
    requires AllRestorable(checks, b) && e.state < TWO_32 && e.time >= TWO_32
    ensures Load(checks, Save(a + [e] + b), q0) == Hangs
  {
    var tail := Save(a);
    LateSave(a, e, b);
    StartsRecord(e, tail);
    SavedLoads(checks, b, Record(e) + tail, q0);
    LateRecordHangs(checks, e, tail, b + q0);
  }

  lemma LateSave(a: seq<Entry>, e: Entry, b: seq<Entry>)
    ensures Save(a + [e] + b) == Save(b) + (Record(e) + Save(a))
  {
    SaveConcat(a + [e], b);
    SaveConcat(a, [e]);
    OneRecord(e);
  }

  lemma LateRecordHangs(checks: Checks, e: Entry, tail: string, q: seq<Entry>)
    requires e.state < TWO_32 && e.time >= TWO_32
    ensures Load(checks, Record(e) + tail, q) == Hangs
  {
    RecordThenTail(e, tail);
    LateTimeFails(checks, e, tail);
  }

  lemma OneRecord(e: Entry)
    ensures Save([e]) == Record(e)
  {
    assert Save([]) + Record(e) == Record(e);
  }

  lemma LateTimeFails(checks: Checks, e: Entry, tail: string)
    requires e.state < TWO_32 && e.time >= TWO_32
    ensures ReadRecord(checks, "===" + FromState(e, tail)) == NeverEnds
  {
    assert IsWord("===");
    WordReadsBack("===", FromState(e, tail));
    NumberReadsBack(e.state, " " + (PrintInt(e.time) + FromAddress(e, tail)));
    NumberReadsBack(e.time, FromAddress(e, tail));
  }
}
