/** Information elements (GSML3Message.cpp): length-value and tag-length-value coding of a called
    party number or a protocol data unit. */
module Layers {
  import opened Wrappers
  import opened Bits
  import opened BcdDigits

  // ---- Information elements ----

  /** A called party BCD number: type of number, numbering plan and digits. */
  datatype Address = Address(ton: nat, plan: nat, digits: string)

  const INTERNATIONAL: nat := 1

  const NO_ADDRESS: Address := Address(0, 0, "")

  /** What writeLV and parseLV carry: a number, or a protocol data unit as raw bits. */
  datatype Element = Number(address: Address) | Pdu(bits: seq<bool>)

  datatype ElementKind = NumberKind | PduKind

  /** lengthV, in octets. */
  function ValueLength(e: Element): nat {
    match e
    case Number(a) => if LengthV(a.digits) == 0 then 0 else 1 + LengthV(a.digits)
    case Pdu(bits) => (|bits| + 7) / 8
  }

  /** The octet in front of the digits: extension bit, type of number, numbering plan. */
  function TypeBits(a: Address): (b: seq<bool>)
    ensures |b| == 8
  {
    MsbBits(1, 1) + MsbBits(a.ton, 3) + MsbBits(a.plan, 4)
  }

  /** writeV */
  function ValueBits(e: Element): seq<bool> {
    match e
    case Number(a) => TypeBits(a) + DigitBits(a.digits)
    case Pdu(bits) => bits
  }

  /** writeLV */
  function LvBits(e: Element): seq<bool> {
    MsbBits(ValueLength(e), 8) + (if ValueLength(e) == 0 then [] else ValueBits(e))
  }

  predicate WholeOctets(bits: seq<bool>) {
    |bits| % 8 == 0
  }

  /** A number whose type says whether it starts with a plus; an empty one is the default. */
  ghost predicate AddressOk(a: Address) {
    && a.ton < 8 && a.plan < 16
    && WellFormed(a.digits)
    && (a.ton == INTERNATIONAL <==> HasPlus(a.digits))
    && (LengthV(a.digits) == 0 ==> a == NO_ADDRESS)
  }

  ghost predicate ElementOk(e: Element) {
    match e
    case Number(a) => AddressOk(a)
    case Pdu(bits) => WholeOctets(bits) && |bits| < 8 * 256
  }

  /** Exact accounting: an element that is kept to whole octets fills lengthLV octets. */
  lemma LvLength(e: Element)
    requires e.Pdu? ==> WholeOctets(e.bits)
    ensures |LvBits(e)| == 8 * (1 + ValueLength(e))
  {
  }

  function KindOf(e: Element): ElementKind {
    if e.Number? then NumberKind else PduKind
  }

  /** parseV with an expected length of at least one octet. */
  function ParseV(kind: ElementKind, src: seq<bool>, rp: nat, expected: nat): Result<Parsed<Element>, ReadError>
    requires expected > 0
  {
    match kind
    case NumberKind =>
      if rp + 8 > |src| then Err(PastEnd)
      else if Field(src, rp, 1) != 1 then Err(BadExtension)
      else
        var ton := Field(src, rp + 1, 3);
        var plan := Field(src, rp + 4, 4);
        (match ParseOctets(src, rp + 8, expected - 1, PlusIf(ton == INTERNATIONAL))
         case Ok(p) => Ok(Parsed(Number(Address(ton, plan, p.value)), p.rp))
         case Err(why) => Err(why))
    case PduKind =>
      if rp + 8 * expected > |src| then Err(PastEnd)
      else Ok(Parsed(Pdu(src[rp..rp + 8 * expected]), rp + 8 * expected))
  }

  /** parseLV: nothing is changed when the length is zero, and the value must end where the length
      said. */
  function ParseLv(was: Element, src: seq<bool>, rp: nat): Result<Parsed<Element>, ReadError> {
    if rp + 8 > |src| then Err(PastEnd)
    else
      var expected := Field(src, rp, 8);
      if expected == 0 then Ok(Parsed(was, rp + 8))
      else
        match ParseV(KindOf(was), src, rp + 8, expected)
        case Err(why) => Err(why)
        case Ok(p) => if p.rp != rp + 8 + 8 * expected then Err(BadLength) else Ok(p)
  }

  /** The end check of parseLV never fails, on any input. */
  lemma EndCheckPasses(was: Element, src: seq<bool>, rp: nat)
    ensures ParseLv(was, src, rp) != Err(BadLength)
  {
    if rp + 16 <= |src| {
      var expected := Field(src, rp, 8);
      if expected > 0 && was.Number? {
        NeverBadLength(src, rp + 16, expected - 1, PlusIf(Field(src, rp + 9, 3) == INTERNATIONAL));
      }
    }
  }

  /** skipLV moves over exactly what parseLV would read. */
  function SkipLv(src: seq<bool>, rp: nat): Option<nat> {
    if rp == |src| then Some(rp)
    else if rp + 8 > |src| then None
    else Some(rp + 8 + 8 * Field(src, rp, 8))
  }

  lemma SkipAgreesWithParse(was: Element, src: seq<bool>, rp: nat)
    requires ParseLv(was, src, rp).Ok?
    ensures SkipLv(src, rp) == Some(ParseLv(was, src, rp).value.rp)
  {
  }

  lemma TypeReadsBack(src: seq<bool>, rp: nat, a: Address)
    requires At(src, rp, TypeBits(a)) && a.ton < 8 && a.plan < 16
    ensures Field(src, rp, 1) == 1 && Field(src, rp + 1, 3) == a.ton && Field(src, rp + 4, 4) == a.plan
  {
    assert Pow2(1) == 2 && Pow2(3) == 8 && Pow2(4) == 16;
    AtSplit(src, rp, MsbBits(1, 1) + MsbBits(a.ton, 3), MsbBits(a.plan, 4));
    AtSplit(src, rp, MsbBits(1, 1), MsbBits(a.ton, 3));
    FieldAt(src, rp, 1, 1);
    FieldAt(src, rp + 1, a.ton, 3);
    FieldAt(src, rp + 4, a.plan, 4);
  }

  lemma NumberParses(src: seq<bool>, rp: nat, a: Address, octets: nat, next: nat)
    requires rp + 8 <= |src|
    requires Field(src, rp, 1) == 1 && Field(src, rp + 1, 3) == a.ton && Field(src, rp + 4, 4) == a.plan
    requires ParseOctets(src, rp + 8, octets, PlusIf(a.ton == INTERNATIONAL)) == Ok(Parsed(a.digits, next))
    ensures ParseV(NumberKind, src, rp, 1 + octets) == Ok(Parsed(Number(a), next))
  {
  }

  lemma NumberReadsBack(a: Address, src: seq<bool>, rp: nat, octets: nat, next: nat)
    requires AddressOk(a) && octets == LengthV(a.digits) && next == rp + 8 + 8 * octets
    requires At(src, rp, TypeBits(a) + DigitBits(a.digits))
    ensures ParseV(NumberKind, src, rp, 1 + octets) == Ok(Parsed(Number(a), next))
  {
    TypeStands(a, src, rp);
    DialedStand(a, src, rp + 8, octets, next);
    NumberParses(src, rp, a, octets, next);
  }

  lemma TypeStands(a: Address, src: seq<bool>, rp: nat)
    requires AddressOk(a) && At(src, rp, TypeBits(a) + DigitBits(a.digits))
    ensures rp + 8 <= |src| && At(src, rp + 8, DigitBits(a.digits))
    ensures Field(src, rp, 1) == 1 && Field(src, rp + 1, 3) == a.ton && Field(src, rp + 4, 4) == a.plan
  {
    AtSplit(src, rp, TypeBits(a), DigitBits(a.digits));
    TypeReadsBack(src, rp, a);
  }

  lemma DialedStand(a: Address, src: seq<bool>, rp: nat, octets: nat, next: nat)
    requires WellFormed(a.digits) && (a.ton == INTERNATIONAL <==> HasPlus(a.digits))
    requires octets == LengthV(a.digits) && next == rp + 8 * octets && At(src, rp, DigitBits(a.digits))
    ensures ParseOctets(src, rp, octets, PlusIf(a.ton == INTERNATIONAL)) == Ok(Parsed(a.digits, next))
  {
    DigitsRoundTrip(src, rp, a.digits, a.ton == INTERNATIONAL, octets, next);
  }

  lemma PduReadsBack(bits: seq<bool>, src: seq<bool>, rp: nat, octets: nat, next: nat)
    requires |bits| == 8 * octets && octets > 0 && At(src, rp, bits) && next == rp + 8 * octets
    ensures ParseV(PduKind, src, rp, octets) == Ok(Parsed(Pdu(bits), next))
  {
    AtSlice(src, rp, bits);
  }

  lemma ValueReadsBack(e: Element, src: seq<bool>, rp: nat, length: nat, next: nat)
    requires ElementOk(e) && length == ValueLength(e) > 0 && At(src, rp, ValueBits(e)) && next == rp + 8 * length
    ensures ParseV(KindOf(e), src, rp, length) == Ok(Parsed(e, next))
  {
    match e
    case Number(a) => NumberReadsBack(a, src, rp, length - 1, next);
    case Pdu(bits) => PduReadsBack(bits, src, rp, length, next);
  }

  lemma LengthFits(e: Element)
    requires ElementOk(e)
    ensures ValueLength(e) < 256
  {
  }

  /** The length octet and the value as parseLV finds them. */
  ghost predicate LvStands(e: Element, length: nat, src: seq<bool>, rp: nat, next: nat) {
    && rp + 8 <= |src| && Field(src, rp, 8) == length && next == rp + 8 + 8 * length
    && (length > 0 ==> ParseV(KindOf(e), src, rp + 8, length) == Ok(Parsed(e, next)))
  }

  lemma LvParses(was: Element, e: Element, length: nat, src: seq<bool>, rp: nat, next: nat)
    requires LvStands(e, length, src, rp, next) && KindOf(was) == KindOf(e) && (length == 0 ==> was == e)
    ensures ParseLv(was, src, rp) == Ok(Parsed(e, next))
  {
  }

  lemma LengthStands(src: seq<bool>, rp: nat, length: nat, value: seq<bool>)
    requires length < 256 && At(src, rp, MsbBits(length, 8) + value)
    ensures rp + 8 <= |src| && Field(src, rp, 8) == length && At(src, rp + 8, value)
  {
    assert Pow2(8) == 256;
    AtSplit(src, rp, MsbBits(length, 8), value);
    FieldAt(src, rp, length, 8);
  }

  lemma ElementStands(e: Element, length: nat, src: seq<bool>, rp: nat, next: nat)
    requires ElementOk(e) && length == ValueLength(e) && At(src, rp, LvBits(e)) && next == rp + 8 + 8 * length
    ensures LvStands(e, length, src, rp, next)
  {
    LengthFits(e);
    if length == 0 {
      LengthStands(src, rp, length, []);
    } else {
      LengthStands(src, rp, length, ValueBits(e));
      ValueReadsBack(e, src, rp + 8, length, next);
    }
  }

  /** An element written anywhere in a frame reads back whole, up to where it ends. */
  lemma LvReadsBack(was: Element, e: Element, src: seq<bool>, rp: nat, next: nat)
    requires ElementOk(e) && KindOf(was) == KindOf(e)
    requires ValueLength(e) == 0 ==> was == e
    requires At(src, rp, LvBits(e)) && next == rp + 8 + 8 * ValueLength(e)
    ensures ParseLv(was, src, rp) == Ok(Parsed(e, next))
  {
    ElementStands(e, ValueLength(e), src, rp, next);
    LvParses(was, e, ValueLength(e), src, rp, next);
  }

  method WriteType(dest: array<bool>, wp: nat, a: Address) returns (next: nat)
    requires wp + 8 <= dest.Length
    modifies dest
    ensures next == wp + 8 && dest[..] == Overwrite(old(dest[..]), wp, TypeBits(a))
  {
    next := WriteField(dest, wp, 1, 1);
    next := WriteField(dest, next, a.ton, 3);
    OverwriteTwice(old(dest[..]), wp, MsbBits(1, 1), MsbBits(a.ton, 3));
    next := WriteField(dest, next, a.plan, 4);
    OverwriteTwice(old(dest[..]), wp, MsbBits(1, 1) + MsbBits(a.ton, 3), MsbBits(a.plan, 4));
  }

  /** writeLV */
  method WriteLv(dest: array<bool>, wp: nat, e: Element) returns (next: nat)
    requires wp + |LvBits(e)| <= dest.Length
    modifies dest
    ensures next == wp + |LvBits(e)|
    ensures dest[..] == Overwrite(old(dest[..]), wp, LvBits(e))
  {
    next := WriteField(dest, wp, ValueLength(e), 8);
    if ValueLength(e) > 0 {
      OverwriteTwice(old(dest[..]), wp, MsbBits(ValueLength(e), 8), ValueBits(e));
      match e {
        case Number(a) =>
          ghost var was := dest[..];
          next := WriteType(dest, next, a);
          next := WriteDigits(dest, next, a.digits);
          OverwriteTwice(was, wp + 8, TypeBits(a), DigitBits(a.digits));
        case Pdu(bits) =>
          WriteBits(dest, next, bits);
          next := next + |bits|;
      }
    } else {
      assert LvBits(e) == MsbBits(ValueLength(e), 8);
    }
  }

  // ---- Optional elements, with a tag in front ----

  /** writeTLV */
  function TlvBits(tag: nat, e: Element): seq<bool> {
    MsbBits(tag, 8) + LvBits(e)
  }

  /** parseTLV: whether the element was there, and what is known now. */
  function ParseTlv(tag: nat, was: Element, src: seq<bool>, rp: nat): Result<(bool, Parsed<Element>), ReadError> {
    if rp == |src| then Ok((false, Parsed(was, rp)))
    else if rp + 8 > |src| then Err(PastEnd)
    else if Field(src, rp, 8) != tag then Ok((false, Parsed(was, rp)))
    else
      match ParseLv(was, src, rp + 8)
      case Ok(p) => Ok((true, p))
      case Err(why) => Err(why)
  }

  /** skipTLV */
  function SkipTlv(tag: nat, src: seq<bool>, rp: nat): Option<nat> {
    if rp == |src| then Some(rp)
    else if rp + 8 > |src| then None
    else if Field(src, rp, 8) != tag then Some(rp)
    else if rp + 16 > |src| then None
    else Some(rp + 16 + 8 * Field(src, rp + 8, 8))
  }

  lemma SkipTlvAgreesWithParse(tag: nat, was: Element, src: seq<bool>, rp: nat)
    requires ParseTlv(tag, was, src, rp).Ok?
    ensures SkipTlv(tag, src, rp) == Some(ParseTlv(tag, was, src, rp).value.1.rp)
  {
    if rp + 8 <= |src| && Field(src, rp, 8) == tag {
      SkipAgreesWithParse(was, src, rp + 8);
    }
  }

  lemma TlvParses(tag: nat, asked: nat, was: Element, e: Element, src: seq<bool>, rp: nat, next: nat)
    requires rp + 8 <= |src| && Field(src, rp, 8) == tag && ParseLv(was, src, rp + 8) == Ok(Parsed(e, next))
    ensures ParseTlv(asked, was, src, rp)
            == if asked == tag then Ok((true, Parsed(e, next))) else Ok((false, Parsed(was, rp)))
  {
  }

  lemma TagReadsBack(tag: nat, e: Element, src: seq<bool>, rp: nat)
    requires tag < 256 && At(src, rp, TlvBits(tag, e))
    ensures rp + 8 <= |src| && Field(src, rp, 8) == tag && At(src, rp + 8, LvBits(e))
  {
    assert Pow2(8) == 256;
    AtSplit(src, rp, MsbBits(tag, 8), LvBits(e));
    FieldAt(src, rp, tag, 8);
  }

  /** An optional element reads back whole under its own tag, and under any other tag nothing is
      read, so that a parser can look for the next optional element at the same place. */
  lemma TlvReadsBack(tag: nat, asked: nat, was: Element, e: Element, src: seq<bool>, rp: nat, next: nat)
    requires tag < 256 && ElementOk(e) && KindOf(was) == KindOf(e)
    requires ValueLength(e) == 0 ==> was == e
    requires At(src, rp, TlvBits(tag, e)) && next == rp + 16 + 8 * ValueLength(e)
    ensures ParseTlv(asked, was, src, rp)
            == if asked == tag then Ok((true, Parsed(e, next))) else Ok((false, Parsed(was, rp)))
  {
    TagReadsBack(tag, e, src, rp);
    LvReadsBack(was, e, src, rp + 8, next);
    TlvParses(tag, asked, was, e, src, rp, next);
  }

  method WriteTlv(dest: array<bool>, wp: nat, tag: nat, e: Element) returns (next: nat)
    requires wp + |TlvBits(tag, e)| <= dest.Length
    modifies dest
    ensures next == wp + |TlvBits(tag, e)|
    ensures dest[..] == Overwrite(old(dest[..]), wp, TlvBits(tag, e))
  {
    next := WriteField(dest, wp, tag, 8);
    next := WriteLv(dest, next, e);
    OverwriteTwice(old(dest[..]), wp, MsbBits(tag, 8), LvBits(e));
  }
}
