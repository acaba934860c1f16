/** Swapped-nibble BCD digits (GSML3CCElements.cpp): writing, parsing, and what comes back. */
module BcdDigits {
  import opened Wrappers
  import opened Bits

  datatype ReadError = PastEnd | TooManyDigits | BadExtension | BadLength

  /** What a parser leaves behind: the value and the new read position. */
  datatype Parsed<+T> = Parsed(value: T, rp: nat)

  const MAX_DIGITS: nat := 20

  predicate IsDialable(c: char) {
    '0' <= c <= '9' || c == '*' || c == '#'
  }

  /** encode: the nibble of a character; an invalid one is written as 0. */
  function Nibble(c: char): (n: nat)
    ensures n < 12
  {
    if c == '*' then 10 else if c == '#' then 11 else if '0' <= c <= '9' then (c - '0') as nat else 0
  }

  /** The character parse makes of a nibble. */
  function Character(d: nat): char
    requires d < 16
  {
    if d == 10 then '*' else if d == 11 then '#' else '0' + d as char
  }

  lemma NibbleRoundTrip(c: char)
    requires IsDialable(c)
    ensures Character(Nibble(c)) == c
  {
  }

  /** The digits without a leading plus. */
  function Dialed(digits: string): string {
    if digits != [] && digits[0] == '+' then digits[1..] else digits
  }

  /** Octets for n digits, two to an octet. */
  function OctetsFor(n: nat): (octets: nat)
    ensures n <= 2 * octets <= n + 1
  {
    n / 2 + n % 2
  }

  /** lengthV */
  function LengthV(digits: string): nat {
    OctetsFor(|Dialed(digits)|)
  }

  /** One octet as two nibbles, the high one first. */
  function OctetBits(high: nat, low: nat): (b: seq<bool>)
    ensures |b| == 8
  {
    MsbBits(high, 4) + MsbBits(low, 4)
  }

  /** The nibbles of octet k: digit 2k is the low one, the next digit or 15 the high one. */
  function LowNibble(ds: string, k: nat): (n: nat)
    requires 2 * k < |ds|
    ensures n < 12
  {
    Nibble(ds[2 * k])
  }

  function HighNibble(ds: string, k: nat): (n: nat)
    requires 2 * k < |ds|
    ensures n < 16
  {
    if 2 * k + 1 < |ds| then Nibble(ds[2 * k + 1]) else 15
  }

  /** The first k octets of the wire form. */
  function NibbleBits(ds: string, k: nat): (b: seq<bool>)
    requires 2 * k <= |ds| + 1
    ensures |b| == 8 * k
  {
    if k == 0 then [] else NibbleBits(ds, k - 1) + OctetBits(HighNibble(ds, k - 1), LowNibble(ds, k - 1))
  }

  /** The wire form of a digit string. */
  function DigitBits(digits: string): (b: seq<bool>)
    ensures |b| == 8 * LengthV(digits)
  {
    NibbleBits(Dialed(digits), LengthV(digits))
  }

  method WriteOctet(dest: array<bool>, wp: nat, high: nat, low: nat) returns (next: nat)
    requires wp + 8 <= dest.Length
    modifies dest
    ensures next == wp + 8
    ensures dest[..] == Overwrite(old(dest[..]), wp, OctetBits(high, low))
  {
    next := WriteField(dest, wp, high, 4);
    next := WriteField(dest, next, low, 4);
    OverwriteTwice(old(dest[..]), wp, MsbBits(high, 4), MsbBits(low, 4));
  }

  /** The octet of the digit at this index and the one behind it. */
  function PairBits(digits: string, index: nat): (b: seq<bool>)
    requires index < |digits|
    ensures |b| == 8
  {
    OctetBits(if index + 1 < |digits| then Nibble(digits[index + 1]) else 0x0f, Nibble(digits[index]))
  }

  method WritePair(dest: array<bool>, wp: nat, digits: string, index: nat) returns (next: nat)
    requires index < |digits| && wp + 8 <= dest.Length
    modifies dest
    ensures next == wp + 8
    ensures dest[..] == Overwrite(old(dest[..]), wp, PairBits(digits, index))
  {
    var high := if index + 1 < |digits| then Nibble(digits[index + 1]) else 0x0f;
    next := WriteOctet(dest, wp, high, Nibble(digits[index]));
  }

  lemma PairWritten(frame: seq<bool>, wp: nat, digits: string, start: nat, k: nat, index: nat)
    requires index == start + 2 * k < |digits| && wp + 8 * k + 8 <= |frame|
    ensures var ds := digits[start..];
            Overwrite(Overwrite(frame, wp, NibbleBits(ds, k)), wp + 8 * k, PairBits(digits, index))
            == Overwrite(frame, wp, NibbleBits(ds, k + 1))
  {
    var ds := digits[start..];
    assert PairBits(digits, index) == OctetBits(HighNibble(ds, k), LowNibble(ds, k));
    OverwriteTwice(frame, wp, NibbleBits(ds, k), PairBits(digits, index));
  }

  /** L3BCDDigits::write */
  method WriteDigits(dest: array<bool>, wp: nat, digits: string) returns (next: nat)
    requires wp + 8 * LengthV(digits) <= dest.Length
    modifies dest
    ensures next == wp + 8 * LengthV(digits)
    ensures dest[..] == Overwrite(old(dest[..]), wp, DigitBits(digits))
  {
    var index: nat := 0;
    if digits != [] && digits[0] == '+' {
      index := 1;
    }
    next := WriteFrom(dest, wp, digits, index, LengthV(digits));
  }

  /** Its loop, from the first dialed digit on. */
  method WriteFrom(dest: array<bool>, wp: nat, digits: string, start: nat, ghost octets: nat) returns (next: nat)
    requires start <= |digits|
    requires |digits| - start <= 2 * octets <= |digits| - start + 1
    requires wp + 8 * octets <= dest.Length
    modifies dest
    ensures next == wp + 8 * octets
    ensures dest[..] == Overwrite(old(dest[..]), wp, NibbleBits(digits[start..], octets))
  {
    var index := start;
    next := wp;
    ghost var ds := digits[start..];
    ghost var k: nat := 0;
    while index < |digits|
      invariant index == start + 2 * k && k <= octets
      invariant next == wp + 8 * k
      invariant dest[..] == Overwrite(old(dest[..]), wp, NibbleBits(ds, k))
      decreases |digits| - index
    {
      PairWritten(old(dest[..]), wp, digits, start, k, index);
      next := WritePair(dest, next, digits, index);
      k := k + 1;
      index := index + 2;
    }
  }

  /** The digits of one more octet. */
  function WithOctet(digits: string, d2: nat, d1: nat): string
    requires d2 < 16 && d1 < 16
  {
    if d2 != 15 then digits + [Character(d1)] + [Character(d2)] else digits + [Character(d1)]
  }

  /** What parse starts from: a plus for an international number. */
  function PlusIf(international: bool): string {
    if international then "+" else ""
  }

  /** The digits after k octets of L3BCDDigits::parse, which started from `start`. */
  function DigitsAfter(src: seq<bool>, rp: nat, start: string, k: nat): Result<string, ReadError>
    decreases k, src
  {
    if k == 0 then Ok(start)
    else
      match DigitsAfter(src, rp, start, k - 1)
      case Err(why) => Err(why)
      case Ok(digits) => OneOctet(src, rp + 8 * k - 8, digits)
  }

  /** One pass of its loop: the digits of the octet at this position. */
  function OneOctet(src: seq<bool>, at: nat, digits: string): Result<string, ReadError> {
    if at + 8 > |src| then Err(PastEnd)
    else
      var more := WithOctet(digits, Field(src, at, 4), Field(src, at + 4, 4));
      if |more| > MAX_DIGITS then Err(TooManyDigits) else Ok(more)
  }

  /** L3BCDDigits::parse: the digits and the position behind the octets. */
  function ParseOctets(src: seq<bool>, rp: nat, octets: nat, start: string): Result<Parsed<string>, ReadError> {
    match DigitsAfter(src, rp, start, octets)
    case Ok(digits) => Ok(Parsed(digits, rp + 8 * octets))
    case Err(why) => Err(why)
  }

  lemma OctetStep(src: seq<bool>, rp: nat, start: string, k: nat, digits: string, at: nat)
    requires k > 0 && DigitsAfter(src, rp, start, k - 1) == Ok(digits) && at == rp + 8 * k - 8
    ensures DigitsAfter(src, rp, start, k) == OneOctet(src, at, digits)
  {
  }

  lemma ParsedAll(src: seq<bool>, rp: nat, start: string, octets: nat, digits: string, at: nat)
    requires DigitsAfter(src, rp, start, octets) == Ok(digits) && at == rp + 8 * octets
    ensures ParseOctets(src, rp, octets, start) == Ok(Parsed(digits, at))
  {
  }

  lemma {:induction false} ErrorStops(src: seq<bool>, rp: nat, start: string, k: nat, octets: nat)
    requires k <= octets && DigitsAfter(src, rp, start, k).Err?
    ensures DigitsAfter(src, rp, start, octets) == DigitsAfter(src, rp, start, k)
    decreases octets
  {
    if k < octets {
      ErrorStops(src, rp, start, k, octets - 1);
    }
  }

  method ReadOctet(src: seq<bool>, at: nat, digits: string) returns (r: Result<string, ReadError>)
    ensures r == OneOctet(src, at, digits)
  {
    if at + 8 > |src| {
      return Err(PastEnd);
    }
    var d2 := Field(src, at, 4);
    var d1 := Field(src, at + 4, 4);
    var more := digits + [Character(d1)];
    if d2 != 0x0f {
      more := more + [Character(d2)];
    }
    if |more| > MAX_DIGITS {
      return Err(TooManyDigits);
    }
    return Ok(more);
  }

  /** L3BCDDigits::parse */
  method ParseDigits(src: seq<bool>, rp: nat, octets: nat, international: bool)
    returns (r: Result<Parsed<string>, ReadError>)
    ensures r == ParseOctets(src, rp, octets, PlusIf(international))
  {
    var digits := PlusIf(international);
    ghost var start := digits;
    var at: nat, readOctets: nat := rp, 0;
    while readOctets < octets
      invariant readOctets <= octets && at == rp + 8 * readOctets
      invariant DigitsAfter(src, rp, start, readOctets) == Ok(digits)
    {
      readOctets := readOctets + 1;
      OctetStep(src, rp, start, readOctets, digits, at);
      var next := ReadOctet(src, at, digits);
      if next.Err? {
        ErrorStops(src, rp, start, readOctets, octets);
        return Err(next.error);
      }
      digits := next.value;
      at := at + 8;
    }
    ParsedAll(src, rp, start, octets, digits, at);
    return Ok(Parsed(digits, at));
  }

  /** A failed parse has run out of frame or found too many digits, nothing else. */
  lemma {:induction false} NeverBadLength(src: seq<bool>, rp: nat, octets: nat, start: string)
    ensures var r := ParseOctets(src, rp, octets, start);
            r.Err? ==> r.error == PastEnd || r.error == TooManyDigits
    decreases octets
  {
    if octets > 0 {
      NeverBadLength(src, rp, octets - 1, start);
    }
  }

  ghost predicate Dialable(ds: string) {
    forall i :: 0 <= i < |ds| ==> IsDialable(ds[i])
  }

  lemma OctetAt(src: seq<bool>, rp: nat, high: nat, low: nat)
    requires high < 16 && low < 16 && At(src, rp, OctetBits(high, low))
    ensures Field(src, rp, 4) == high && Field(src, rp + 4, 4) == low
  {
    assert Pow2(4) == 16;
    AtSplit(src, rp, MsbBits(high, 4), MsbBits(low, 4));
    FieldAt(src, rp, high, 4);
    FieldAt(src, rp + 4, low, 4);
  }

  /** Every octet of a written digit string stands where it belongs. */
  lemma {:induction false} OctetsStand(src: seq<bool>, rp: nat, ds: string, octets: nat, k: nat)
    requires k < octets && 2 * octets <= |ds| + 1
    requires At(src, rp, NibbleBits(ds, octets))
    ensures At(src, rp + 8 * k, OctetBits(HighNibble(ds, k), LowNibble(ds, k)))
    decreases octets
  {
    AtSplit(src, rp, NibbleBits(ds, octets - 1), OctetBits(HighNibble(ds, octets - 1), LowNibble(ds, octets - 1)));
    if k < octets - 1 {
      OctetsStand(src, rp, ds, octets - 1, k);
    }
  }

  /** The digits of the first k octets. */
  function FirstDigits(ds: string, k: nat): string {
    if 2 * k < |ds| then ds[..2 * k] else ds
  }

  /** One octet read back adds its digits. */
  lemma OctetAdds(start: string, ds: string, k: nat)
    requires 2 * k < |ds| && Dialable(ds)
    ensures WithOctet(start + FirstDigits(ds, k), HighNibble(ds, k), LowNibble(ds, k))
            == start + FirstDigits(ds, k + 1)
  {
    NibbleRoundTrip(ds[2 * k]);
    if 2 * k + 1 < |ds| {
      NibbleRoundTrip(ds[2 * k + 1]);
    }
  }

  /** The nibbles of octet k stand in the frame. */
  ghost predicate OctetIs(src: seq<bool>, rp: nat, ds: string, k: nat) {
    && rp + 8 * k + 8 <= |src| && 2 * k < |ds|
    && Field(src, rp + 8 * k, 4) == HighNibble(ds, k) && Field(src, rp + 8 * k + 4, 4) == LowNibble(ds, k)
  }

  lemma OctetReadsBack(src: seq<bool>, rp: nat, ds: string, octets: nat, k: nat)
    requires k < octets && 2 * octets <= |ds| + 1 && rp + 8 * octets <= |src|
    requires At(src, rp, NibbleBits(ds, octets))
    ensures OctetIs(src, rp, ds, k)
  {
    OctetsStand(src, rp, ds, octets, k);
    OctetAt(src, rp + 8 * k, HighNibble(ds, k), LowNibble(ds, k));
  }

  /** Pass k of the parser adds the digits of octet k - 1 to those before. */
  ghost predicate TakesOctet(src: seq<bool>, rp: nat, start: string, ds: string, k: nat) {
    k > 0 && OneOctet(src, rp + 8 * k - 8, start + FirstDigits(ds, k - 1)) == Ok(start + FirstDigits(ds, k))
  }

  lemma OctetTaken(src: seq<bool>, rp: nat, start: string, ds: string, k: nat)
    requires Dialable(ds) && |start| + |ds| <= MAX_DIGITS && OctetIs(src, rp, ds, k)
    ensures TakesOctet(src, rp, start, ds, k + 1)
  {
    OctetAdds(start, ds, k);
  }

  ghost predicate DigitsStand(src: seq<bool>, rp: nat, start: string, ds: string, octets: nat) {
    forall k: nat {:trigger TakesOctet(src, rp, start, ds, k)} :: 0 < k <= octets ==> TakesOctet(src, rp, start, ds, k)
  }

  lemma AllReadBack(src: seq<bool>, rp: nat, start: string, ds: string, octets: nat)
    requires Dialable(ds) && |start| + |ds| <= MAX_DIGITS
    requires 2 * octets <= |ds| + 1 && rp + 8 * octets <= |src| && At(src, rp, NibbleBits(ds, octets))
    ensures DigitsStand(src, rp, start, ds, octets)
  {
    forall k: nat {:trigger TakesOctet(src, rp, start, ds, k)} | 0 < k <= octets
      ensures TakesOctet(src, rp, start, ds, k)
    {
      OctetReadsBack(src, rp, ds, octets, k - 1);
      OctetTaken(src, rp, start, ds, k - 1);
    }
  }

  lemma NextOctet(src: seq<bool>, rp: nat, start: string, ds: string, octets: nat, k: nat)
    requires 0 < k <= octets && DigitsStand(src, rp, start, ds, octets)
    requires DigitsAfter(src, rp, start, k - 1) == Ok(start + FirstDigits(ds, k - 1))
    ensures DigitsAfter(src, rp, start, k) == Ok(start + FirstDigits(ds, k))
  {
    assert TakesOctet(src, rp, start, ds, k);
    OctetStep(src, rp, start, k, start + FirstDigits(ds, k - 1), rp + 8 * k - 8);
  }

  lemma NoDigitsYet(src: seq<bool>, rp: nat, start: string, ds: string)
    ensures DigitsAfter(src, rp, start, 0) == Ok(start + FirstDigits(ds, 0))
  {
    assert start + FirstDigits(ds, 0) == start;
  }

  /** After all octets the parser has the digits that were written into them. */
  lemma DigitsReadBack(src: seq<bool>, rp: nat, start: string, ds: string, octets: nat)
    requires DigitsStand(src, rp, start, ds, octets)
    ensures DigitsAfter(src, rp, start, octets) == Ok(start + FirstDigits(ds, octets))
  {
    var k: nat := 0;
    NoDigitsYet(src, rp, start, ds);
    while k < octets
      invariant k <= octets && DigitsAfter(src, rp, start, k) == Ok(start + FirstDigits(ds, k))
    {
      k := k + 1;
      NextOctet(src, rp, start, ds, octets, k);
    }
  }

  /** A digit string: dialable characters after an optional plus, at most 20 in all. */
  ghost predicate WellFormed(digits: string) {
    Dialable(Dialed(digits)) && |digits| <= MAX_DIGITS
  }

  predicate HasPlus(digits: string) {
    digits != [] && digits[0] == '+'
  }

  lemma AllDigitsRead(ds: string, octets: nat)
    requires octets == OctetsFor(|ds|)
    ensures FirstDigits(ds, octets) == ds && 2 * octets <= |ds| + 1
  {
  }

  lemma RestReadsBack(src: seq<bool>, rp: nat, start: string, ds: string, octets: nat)
    requires Dialable(ds) && |start| + |ds| <= MAX_DIGITS && octets == OctetsFor(|ds|)
    requires rp + 8 * octets <= |src| && At(src, rp, NibbleBits(ds, octets))
    ensures DigitsAfter(src, rp, start, octets) == Ok(start + ds)
  {
    AllDigitsRead(ds, octets);
    AllReadBack(src, rp, start, ds, octets);
    DigitsReadBack(src, rp, start, ds, octets);
  }

  lemma PlusAndDialed(digits: string)
    ensures PlusIf(HasPlus(digits)) + Dialed(digits) == digits
  {
  }

  /** Round trip: the octets written for a digit string read back as the same string when the
      parser is told whether it is international. */
  lemma DigitsRoundTrip(src: seq<bool>, rp: nat, digits: string, international: bool, octets: nat, next: nat)
    requires WellFormed(digits) && At(src, rp, DigitBits(digits))
    requires international == HasPlus(digits) && octets == LengthV(digits) && next == rp + 8 * octets
    ensures ParseOctets(src, rp, octets, PlusIf(international)) == Ok(Parsed(digits, next))
  {
    PlusAndDialed(digits);
    RestReadsBack(src, rp, PlusIf(international), Dialed(digits), octets);
    ParsedAll(src, rp, PlusIf(international), octets, digits, next);
  }

  // ---- Characters that are no digits ----

  /** The digit that is sent for a character. */
  function Sent(c: char): char {
    Character(Nibble(c))
  }

  lemma SentAgain(c: char)
    ensures IsDialable(Sent(c)) && Nibble(Sent(c)) == Nibble(c)
  {
  }

  /** A string with each character behind the plus replaced by the digit that is sent for it. */
  function Cleaned(digits: string): (r: string)
    ensures |r| == |digits|
  {
    seq(|digits|, i requires 0 <= i < |digits| => if i == 0 && digits[0] == '+' then '+' else Sent(digits[i]))
  }

  lemma CleanedDialed(digits: string)
    ensures HasPlus(Cleaned(digits)) == HasPlus(digits)
    ensures |Dialed(Cleaned(digits))| == |Dialed(digits)|
    ensures forall i :: 0 <= i < |Dialed(digits)| ==> Dialed(Cleaned(digits))[i] == Sent(Dialed(digits)[i])
    ensures Dialable(Dialed(Cleaned(digits)))
  {
    forall i | 0 <= i < |digits|
      ensures IsDialable(Sent(digits[i]))
    {
      SentAgain(digits[i]);
    }
  }

  lemma {:induction false} SameNibbles(a: string, b: string, k: nat)
    requires |a| == |b| && 2 * k <= |a| + 1
    requires forall i :: 0 <= i < |a| ==> Nibble(a[i]) == Nibble(b[i])
    ensures NibbleBits(a, k) == NibbleBits(b, k)
  {
    if k > 0 {
      SameNibbles(a, b, k - 1);
    }
  }

  /** Any string is sent as the digits of the cleaned one. */
  lemma CleanedBits(digits: string)
    ensures DigitBits(Cleaned(digits)) == DigitBits(digits) && LengthV(Cleaned(digits)) == LengthV(digits)
  {
    CleanedDialed(digits);
    var a, b := Dialed(Cleaned(digits)), Dialed(digits);
    forall i | 0 <= i < |b|
      ensures Nibble(a[i]) == Nibble(b[i])
    {
      SentAgain(b[i]);
    }
    SameNibbles(a, b, LengthV(digits));
  }
}
