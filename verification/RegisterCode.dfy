/** The registration short code (smcommands.cpp): reading a phone number out of a message and
    booking it for a subscriber. */
module RegisterCode {
  import opened Wrappers
  import opened Characters

  // ---- The number ----

  /** Characters that may stand anywhere and are not part of the number. */
  predicate IsFiller(c: char) {
    c == ' ' || c == '(' || c == ')' || c == '\r' || c == '\n' || c == '!'
  }

  datatype Fault = MisplacedPlus | InvalidCharacter(c: char) | WrongLength(digits: nat)

  /** What the loop has collected: the number, how many digits and exclamation marks it has seen,
      whether it has seen a plus, and what stopped it. */
  datatype Scan = Scan(number: string, digits: nat, plus: bool, exclaim: nat, fault: Option<Fault>)

  const START: Scan := Scan("", 0, false, 0, None)

  function ScanChar(s: Scan, c: char): Scan {
    if IsDigit(c) then s.(number := s.number + [c], digits := s.digits + 1)
    else if c == '+' then
      if s.digits == 0 && !s.plus then s.(number := s.number + [c], plus := true)
      else s.(fault := Some(MisplacedPlus))
    else if c == '!' then s.(exclaim := s.exclaim + 1)
    else if IsFiller(c) then s
    else s.(fault := Some(InvalidCharacter(c)))
  }

  /** The first n characters, up to the first fault. */
  function ScanText(text: string, n: nat): Scan
    requires n <= |text|
  {
    if n == 0 then START
    else
      var s := ScanText(text, n - 1);
      if s.fault.Some? then s else ScanChar(s, text[n - 1])
  }

  method ScanNumber(text: string) returns (s: Scan)
    ensures s == ScanText(text, |text|)
  {
    var number, digits: nat, plus, exclaim: nat := "", 0, false, 0;
    var fault: Option<Fault> := None;
    var p: nat := 0;
    while p < |text| && fault.None?
      invariant p <= |text| && ScanText(text, p) == Scan(number, digits, plus, exclaim, fault)
    {
      var c := text[p];
      if IsDigit(c) {
        number := number + [c];
        digits := digits + 1;
      } else if c == '+' {
        if digits == 0 && !plus {
          number := number + [c];
          plus := true;
        } else {
          fault := Some(MisplacedPlus);
        }
      } else if c == '!' {
        exclaim := exclaim + 1;
      } else if !IsFiller(c) {
        fault := Some(InvalidCharacter(c));
      }
      p := p + 1;
    }
    s := Scan(number, digits, plus, exclaim, fault);
    FaultStops(text, p, |text|);
  }

  lemma {:induction false} FaultStops(text: string, p: nat, n: nat)
    requires p <= n <= |text| && (p == n || ScanText(text, p).fault.Some?)
    ensures ScanText(text, n) == ScanText(text, p)
    decreases n
  {
    if p < n {
      FaultStops(text, p, n - 1);
    }
  }

  /** The digits and pluses of a text, in order. */
  function Kept(text: string): string {
    if text == "" then ""
    else if IsDigit(text[|text| - 1]) || text[|text| - 1] == '+' then Kept(text[..|text| - 1]) + [text[|text| - 1]]
    else Kept(text[..|text| - 1])
  }

  ghost predicate OnlyAllowed(text: string) {
    forall i :: 0 <= i < |text| ==> IsDigit(text[i]) || text[i] == '+' || IsFiller(text[i])
  }

  /** A phone number: digits after an optional plus. */
  ghost predicate IsNumber(s: string) {
    AllDigits(s) || (s != "" && s[0] == '+' && AllDigits(s[1..]))
  }

  function Count(text: string, c: char): nat {
    if text == "" then 0
    else Count(text[..|text| - 1], c) + (if text[|text| - 1] == c then 1 else 0)
  }

  /** What a scan without a fault has collected. */
  ghost predicate Clean(s: Scan, text: string) {
    && s.number == Kept(text) && IsNumber(s.number)
    && s.plus == (s.number != "" && s.number[0] == '+')
    && s.digits == |s.number| - (if s.plus then 1 else 0)
    && s.exclaim == Count(text, '!')
  }

  lemma MoreText(text: string, c: char)
    ensures Kept(text + [c]) == if IsDigit(c) || c == '+' then Kept(text) + [c] else Kept(text)
    ensures Count(text + [c], '!') == Count(text, '!') + (if c == '!' then 1 else 0)
  {
    var more := text + [c];
    assert more[..|more| - 1] == text && more[|more| - 1] == c;
  }

  lemma DigitKeepsClean(s: Scan, text: string, c: char)
    requires Clean(s, text) && IsDigit(c)
    ensures Clean(ScanChar(s, c), text + [c])
  {
    MoreText(text, c);
    if s.plus {
      assert (s.number + [c])[1..] == s.number[1..] + [c];
    }
  }

  lemma PlusKeepsClean(s: Scan, text: string)
    requires Clean(s, text) && s.fault.None?
    ensures var next := ScanChar(s, '+');
            if next.fault.None? then Clean(next, text + ['+']) else !IsNumber(Kept(text + ['+']))
  {
    MoreText(text, '+');
    if s.number != "" {
      PlusTooLate(s.number);
    }
  }

  lemma OtherKeepsClean(s: Scan, text: string, c: char)
    requires Clean(s, text) && IsFiller(c)
    ensures Clean(ScanChar(s, c), text + [c]) && ScanChar(s, c).fault == s.fault
  {
    MoreText(text, c);
  }

  /** One more character after a clean scan: it stays clean exactly when the character fits. */
  lemma ScanStep(s: Scan, text: string, c: char)
    requires Clean(s, text) && s.fault.None?
    ensures var next := ScanChar(s, c);
            && (next.fault.None? ==> Clean(next, text + [c]) && (IsDigit(c) || c == '+' || IsFiller(c)))
            && (next.fault.Some? ==> !(IsDigit(c) || c == '+' || IsFiller(c)) || !IsNumber(Kept(text + [c])))
  {
    if IsDigit(c) {
      DigitKeepsClean(s, text, c);
    } else if c == '+' {
      PlusKeepsClean(s, text);
    } else if IsFiller(c) {
      OtherKeepsClean(s, text, c);
    }
  }

  lemma PlusTooLate(number: string)
    requires number != ""
    ensures !IsNumber(number + ['+'])
  {
    var n := number + ['+'];
    assert n[|number|] == '+';
    assert n[1..][|number| - 1] == '+';
  }

  /** Once a prefix is no number, no longer text is one. */
  lemma {:induction false} KeptPrefix(text: string, n: nat)
    requires n <= |text|
    ensures Kept(text[..n]) <= Kept(text)
    decreases |text|
  {
    if n < |text| {
      KeptPrefix(text[..|text| - 1], n);
      assert text[..|text| - 1][..n] == text[..n];
    } else {
      assert text[..n] == text;
    }
  }

  lemma PrefixOfNumber(a: string, b: string)
    requires a <= b && IsNumber(b)
    ensures IsNumber(a)
  {
    if a != "" && a[0] == '+' {
      assert a[1..] <= b[1..];
    }
  }

  /** The loop accepts exactly the texts made of digits, fillers and one plus in front of all digits,
      and collects from them the number without the fillers. */
  lemma {:induction false} ScanMeaning(text: string, n: nat)
    requires n <= |text|
    ensures var s := ScanText(text, n);
            && (s.fault.None? <==> OnlyAllowed(text[..n]) && IsNumber(Kept(text[..n])))
            && (s.fault.None? ==> Clean(s, text[..n]))
    decreases n
  {
    if n > 0 {
      ScanMeaning(text, n - 1);
      assert text[..n] == text[..n - 1] + [text[n - 1]];
      var before := ScanText(text, n - 1);
      if before.fault.None? {
        ScanStep(before, text[..n - 1], text[n - 1]);
      } else {
        FaultRemains(text[..n - 1], text[n - 1]);
      }
    }
  }

  lemma FaultRemains(text: string, c: char)
    requires !(OnlyAllowed(text) && IsNumber(Kept(text)))
    ensures !(OnlyAllowed(text + [c]) && IsNumber(Kept(text + [c])))
  {
    var more := text + [c];
    assert more[..|text|] == text;
    if OnlyAllowed(more) {
      assert forall i :: 0 <= i < |text| ==> more[i] == text[i];
      assert OnlyAllowed(text);
      KeptPrefix(more, |text|);
      if IsNumber(Kept(more)) {
        PrefixOfNumber(Kept(text), Kept(more));
      }
    }
  }

  // ---- The decision ----

  datatype Config = Config(min: int, max: int, mayOverride: bool)

  datatype Number = Good(number: string) | Wrong(fault: Fault)

  /** The number of a message, or what is wrong with it. */
  function NumberOf(cfg: Config, text: string): Number {
    var s := ScanText(text, |text|);
    if s.fault.Some? then Wrong(s.fault.value)
    else if !(cfg.mayOverride && s.exclaim == 3) && (s.digits > cfg.max || s.digits < cfg.min)
    then Wrong(WrongLength(s.digits))
    else Good(s.number)
  }

  function DigitCount(number: string): nat {
    if number != "" && number[0] == '+' then |number| - 1 else |number|
  }

  /** Exactly which messages are good, and what their number is. */
  lemma GoodNumbers(cfg: Config, text: string)
    ensures NumberOf(cfg, text).Good? <==>
            && OnlyAllowed(text) && IsNumber(Kept(text))
            && (cfg.min <= DigitCount(Kept(text)) <= cfg.max || (cfg.mayOverride && Count(text, '!') == 3))
    ensures NumberOf(cfg, text).Good? ==> NumberOf(cfg, text).number == Kept(text)
  {
    ScanMeaning(text, |text|);
    assert text[..|text|] == text;
  }

  datatype HlrAnswer = Success | Delayed | Failure | TryAgain

  datatype Reply = Faulty(fault: Fault) | Welcome(number: string) | Already(number: string) | Taken(number: string)
                 | NotAdded(number: string)

  datatype Action = SayBack(reply: Reply) | StartRegister | AwaitRegister | RetryAfterDelay

  /** Subscribers and their numbers, and the additions that have been promised for later. */
  datatype Hlr = Hlr(users: map<string, string>, promised: seq<(string, string)>)

  /** shortcode_register: the action, and whether it added the number or had it promised. */
  function Register(cfg: Config, h: Hlr, imsi: string, text: string, did: HlrAnswer): (Action, Hlr) {
    match NumberOf(cfg, text)
    case Wrong(fault) => (SayBack(Faulty(fault)), h)
    case Good(number) =>
      if imsi in h.users then
        (SayBack(if h.users[imsi] == number then Welcome(number) else Already(h.users[imsi])), h)
      else if number in h.users.Values then (SayBack(Taken(number)), h)
      else
        match did
        case Success => (StartRegister, h.(users := h.users[imsi := number]))
        case Delayed => (AwaitRegister, h.(promised := h.promised + [(imsi, number)]))
        case Failure => (SayBack(NotAdded(number)), h)
        case TryAgain => (RetryAfterDelay, h)
  }

  /** A message with a number of an allowed length, or of any length with three exclamation marks. */
  ghost predicate AsksFor(cfg: Config, text: string, number: string) {
    && OnlyAllowed(text) && Kept(text) == number && IsNumber(number)
    && (cfg.min <= DigitCount(number) <= cfg.max || (cfg.mayOverride && Count(text, '!') == 3))
  }

  /** A free number for a new subscriber: the registry's answer decides. Once it is booked the handset
      is registered, a promise is waited for, a failure is told, and a busy registry is asked again. */
  lemma FreeNumber(cfg: Config, h: Hlr, imsi: string, text: string, did: HlrAnswer, number: string)
    requires AsksFor(cfg, text, number) && imsi !in h.users && number !in h.users.Values
    ensures var r := Register(cfg, h, imsi, text, did);
            && (did == Success ==> r == (StartRegister, Hlr(h.users[imsi := number], h.promised)))
            && (did == Delayed ==> r == (AwaitRegister, Hlr(h.users, h.promised + [(imsi, number)])))
            && (did == Failure ==> r == (SayBack(NotAdded(number)), h))
            && (did == TryAgain ==> r == (RetryAfterDelay, h))
  {
    GoodNumbers(cfg, text);
  }

  /** A subscriber who has a number keeps it and is told so, and a number that another one has is
      refused; the registry is not asked to add anything. */
  lemma NoFreeNumber(cfg: Config, h: Hlr, imsi: string, text: string, did: HlrAnswer, number: string)
    requires AsksFor(cfg, text, number) && (imsi in h.users || number in h.users.Values)
    ensures Register(cfg, h, imsi, text, did)
            == (SayBack(if imsi !in h.users then Taken(number)
                        else if h.users[imsi] == number then Welcome(number)
                        else Already(h.users[imsi])), h)
  {
    GoodNumbers(cfg, text);
  }

  /** Every other message is answered with its fault, a number of a wrong length with its length. */
  lemma NoNumber(cfg: Config, h: Hlr, imsi: string, text: string, did: HlrAnswer)
    requires forall number: string :: !AsksFor(cfg, text, number)
    ensures var r := Register(cfg, h, imsi, text, did);
            && r.0.SayBack? && r.0.reply.Faulty? && r.1 == h
            && (OnlyAllowed(text) && IsNumber(Kept(text)) ==> r.0.reply.fault == WrongLength(DigitCount(Kept(text))))
  {
    assert !AsksFor(cfg, text, Kept(text));
    GoodNumbers(cfg, text);
    ScanMeaning(text, |text|);
    assert text[..|text|] == text;
  }

  /** The fault that is told is the first one: a character that may not stand in a message, or a plus
      behind a digit or another plus. */
  lemma FirstFault(cfg: Config, text: string, n: nat)
    requires n < |text| && OnlyAllowed(text[..n]) && IsNumber(Kept(text[..n]))
    ensures !IsDigit(text[n]) && text[n] != '+' && !IsFiller(text[n]) ==>
              NumberOf(cfg, text) == Wrong(InvalidCharacter(text[n]))
    ensures text[n] == '+' && Kept(text[..n]) != "" ==> NumberOf(cfg, text) == Wrong(MisplacedPlus)
  {
    ScanMeaning(text, n);
    if ScanText(text, n + 1).fault.Some? {
      FaultStops(text, n + 1, |text|);
    }
  }

  /** The registry with the method that runs the short code. */
  class Registrar {
    var hlr: Hlr
    const cfg: Config

    constructor (cfg: Config, users: map<string, string>)
      ensures this.cfg == cfg && hlr == Hlr(users, [])
    {
      this.cfg := cfg;
      hlr := Hlr(users, []);
    }

    method RunRegister(imsi: string, text: string, did: HlrAnswer) returns (action: Action)
      modifies this`hlr
      ensures (action, hlr) == Register(cfg, old(hlr), imsi, text, did)
    {
      var s := ScanNumber(text);
      if s.fault.Some? {
        return SayBack(Faulty(s.fault.value));
      }
      var override := cfg.mayOverride && s.exclaim == 3;
      if !override && (s.digits > cfg.max || s.digits < cfg.min) {
        return SayBack(Faulty(WrongLength(s.digits)));
      }
      if imsi in hlr.users {
        if hlr.users[imsi] == s.number {
          return SayBack(Welcome(s.number));
        }
        return SayBack(Already(hlr.users[imsi]));
      }
      if s.number in hlr.users.Values {
        return SayBack(Taken(s.number));
      }
      match did {
        case Success =>
          hlr := hlr.(users := hlr.users[imsi := s.number]);
          return StartRegister;
        case Delayed =>
          hlr := hlr.(promised := hlr.promised + [(imsi, s.number)]);
          return AwaitRegister;
        case Failure => return SayBack(NotAdded(s.number));
        case TryAgain => return RetryAfterDelay;
      }
    }
  }

  // ---- Runs ----

  /** A message with the registration short code, or the registry making the k-th promised addition. */
  datatype Event = Message(imsi: string, text: string, did: HlrAnswer) | Landing(k: nat)

  function Happen(cfg: Config, h: Hlr, e: Event): Hlr {
    match e
    case Message(imsi, text, did) => Register(cfg, h, imsi, text, did).1
    case Landing(k) =>
      if k < |h.promised| then h.(users := h.users[h.promised[k].0 := h.promised[k].1]) else h
  }

  function RunAll(cfg: Config, h: Hlr, events: seq<Event>): Hlr
    decreases |events|
  {
    if events == [] then h else RunAll(cfg, Happen(cfg, h, events[0]), events[1..])
  }

  ghost predicate OneToOne(users: map<string, string>) {
    forall a, b :: a in users && b in users && users[a] == users[b] ==> a == b
  }

  /** The numbers that are new since before: each read from some message, and good. */
  ghost predicate GrownByGood(cfg: Config, before: map<string, string>, users: map<string, string>) {
    && (forall imsi :: imsi in before ==> imsi in users && users[imsi] == before[imsi])
    && (forall imsi :: imsi in users && imsi !in before ==> Acceptable(cfg, users[imsi]))
  }

  /** A number as it can come out of some message. */
  ghost predicate Acceptable(cfg: Config, number: string) {
    IsNumber(number) && (cfg.mayOverride || cfg.min <= DigitCount(number) <= cfg.max)
  }

  ghost predicate NothingDelayed(events: seq<Event>) {
    forall i :: 0 <= i < |events| ==> (events[i].Message? ==> events[i].did != Delayed)
  }

  lemma MessageKeeps(cfg: Config, h: Hlr, imsi: string, text: string, did: HlrAnswer)
    requires OneToOne(h.users)
    ensures var r := Register(cfg, h, imsi, text, did).1;
            && OneToOne(r.users) && GrownByGood(cfg, h.users, r.users)
            && (did != Delayed ==> r.promised == h.promised)
            && (r.users != h.users ==>
                  imsi !in h.users && NumberOf(cfg, text).Good? && r.users == h.users[imsi := Kept(text)])
  {
    GoodNumbers(cfg, text);
    var n := NumberOf(cfg, text);
    var r := Register(cfg, h, imsi, text, did).1;
    if r.users != h.users {
      forall a, b | a in r.users && b in r.users && r.users[a] == r.users[b]
        ensures a == b
      {
        assert a != imsi ==> a in h.users && h.users[a] in h.users.Values;
        assert b != imsi ==> b in h.users && h.users[b] in h.users.Values;
      }
    }
  }

  /** Over any run without delayed answers the registry stays one-to-one, keeps every subscriber's
      number, and takes up only well-formed numbers of an allowed length or overridden ones. */
  lemma {:induction false} RegistryStaysOneToOne(cfg: Config, h: Hlr, events: seq<Event>)
    requires OneToOne(h.users) && h.promised == [] && NothingDelayed(events)
    ensures var r := RunAll(cfg, h, events);
            OneToOne(r.users) && r.promised == [] && GrownByGood(cfg, h.users, r.users)
    decreases |events|
  {
    if events != [] {
      var next := Happen(cfg, h, events[0]);
      if events[0].Message? {
        MessageKeeps(cfg, h, events[0].imsi, events[0].text, events[0].did);
      }
      RegistryStaysOneToOne(cfg, next, events[1..]);
    }
  }

  /** A request that was accepted is answered with a welcome when it is run again after the handset
      has registered, whatever other requests came between, and adds nothing. */
  lemma RerunWelcomes(cfg: Config, h: Hlr, imsi: string, text: string, between: seq<Event>, did: HlrAnswer)
    requires OneToOne(h.users) && h.promised == [] && NothingDelayed(between)
    requires Register(cfg, h, imsi, text, Success).0 == StartRegister
    ensures var later := RunAll(cfg, Register(cfg, h, imsi, text, Success).1, between);
            Register(cfg, later, imsi, text, did) == (SayBack(Welcome(Kept(text))), later)
  {
    var accepted := Register(cfg, h, imsi, text, Success).1;
    MessageKeeps(cfg, h, imsi, text, Success);
    RegistryStaysOneToOne(cfg, accepted, between);
    GoodNumbers(cfg, text);
    assert imsi in accepted.users && accepted.users[imsi] == Kept(text);
  }

  /** A promised addition keeps the registry one-to-one exactly when no other subscriber holds the
      number by the time it is made. */
  lemma LandingKeeps(cfg: Config, h: Hlr, k: nat)
    requires OneToOne(h.users) && k < |h.promised|
    ensures var p := h.promised[k];
            OneToOne(Happen(cfg, h, Landing(k)).users) <==>
            forall imsi :: imsi in h.users && imsi != p.0 ==> h.users[imsi] != p.1
  {
    var p := h.promised[k];
    var r := Happen(cfg, h, Landing(k)).users;
    if OneToOne(r) {
      forall imsi | imsi in h.users && imsi != p.0
        ensures h.users[imsi] != p.1
      {
        assert imsi in r && p.0 in r && r[imsi] == h.users[imsi] && r[p.0] == p.1;
      }
    }
  }

  const OPEN: Config := Config(0, 20, false)
  const TWO_DELAYED: seq<Event> :=
    [Message("001", "5551234", Delayed), Message("002", "5551234", Delayed), Landing(0), Landing(1)]

  /** With delayed answers it need not hold: two subscribers can be promised one number. */
  lemma DelayedCanCollide()
    ensures !OneToOne(RunAll(OPEN, Hlr(map[], []), TWO_DELAYED).users)
  {
    var h0 := Hlr(map[], []);
    var text := "5551234";
    var n := Kept(text);
    SevenDigits(text);
    var h1 := Happen(OPEN, h0, TWO_DELAYED[0]);
    assert h1 == Hlr(map[], [("001", n)]);
    var h2 := Happen(OPEN, h1, TWO_DELAYED[1]);
    assert h2 == Hlr(map[], [("001", n), ("002", n)]);
    var h3 := Happen(OPEN, h2, Landing(0));
    var h4 := Happen(OPEN, h3, Landing(1));
    assert TWO_DELAYED[1..][0] == TWO_DELAYED[1];
    assert TWO_DELAYED[1..][1..] == [Landing(0), Landing(1)];
    assert RunAll(OPEN, h4, []) == h4;
    assert RunAll(OPEN, h2, [Landing(0), Landing(1)]) == h4;
    assert RunAll(OPEN, h0, TWO_DELAYED) == h4;
    assert "001" in h4.users && "002" in h4.users && h4.users["001"] == h4.users["002"];
    assert "001" != "002";
  }

  lemma SevenDigits(text: string)
    requires AllDigits(text) && |text| <= 20
    ensures NumberOf(OPEN, text) == Good(Kept(text))
  {
    KeptDigits(text);
    GoodNumbers(OPEN, text);
  }

  lemma {:induction false} KeptDigits(text: string)
    requires AllDigits(text)
    ensures Kept(text) == text
  {
    if text != "" {
      KeptDigits(text[..|text| - 1]);
    }
  }
}
