/** RP-DATA (section 7.3.1 of GSM 04.11), the CP-DATA message that carries it, and the SMS address
    with its own length field. */
module RelayLayer {
  import opened Wrappers
  import opened Bits
  import opened BcdDigits
  import opened Layers

  // ---- RP-DATA ----

  /** The fields of an RPData object. */
  datatype RpFields = RpFields(reference: nat, originator: Address, destination: Address, tpdu: seq<bool>)

  /** A default-constructed RPData. */
  const NEW_RP: RpFields := RpFields(0, NO_ADDRESS, NO_ADDRESS, [])

  ghost predicate RpOk(v: RpFields) {
    && v.reference < 256
    && AddressOk(v.originator) && AddressOk(v.destination)
    && WholeOctets(v.tpdu) && |v.tpdu| < 8 * 256
  }

  /** length: two header octets and the three length-value elements. */
  function RpLength(v: RpFields): nat {
    2 + (1 + ValueLength(Number(v.originator))) + (1 + ValueLength(Number(v.destination)))
    + (1 + ValueLength(Pdu(v.tpdu)))
  }

  /** bitsNeeded */
  function RpBitsNeeded(v: RpFields): nat {
    8 * RpLength(v)
  }

  /** Spare bits, the downlink message type (RP-DATA plus one), and the reference. */
  function RpHeader(reference: nat): (b: seq<bool>)
    ensures |b| == 16
  {
    MsbBits(0, 5) + MsbBits(1, 3) + MsbBits(reference, 8)
  }

  function RpBody(v: RpFields): seq<bool> {
    LvBits(Number(v.originator)) + LvBits(Number(v.destination)) + LvBits(Pdu(v.tpdu))
  }

  /** The frame that RPMessage::write makes. */
  function RpBits(v: RpFields): seq<bool> {
    RpHeader(v.reference) + RpBody(v)
  }

  /** RPMessage::parse on an object with these fields. */
  function ParseRp(was: RpFields, src: seq<bool>): Result<RpFields, ReadError> {
    if |src| < 16 then Err(PastEnd)
    else
      match ParseLv(Number(was.originator), src, 16)
      case Err(why) => Err(why)
      case Ok(o) =>
        match ParseLv(Number(was.destination), src, o.rp)
        case Err(why) => Err(why)
        case Ok(d) =>
          match ParseLv(Pdu(was.tpdu), src, d.rp)
          case Err(why) => Err(why)
          case Ok(u) =>
            if o.value.Number? && d.value.Number? && u.value.Pdu?
            then Ok(RpFields(Field(src, 8, 8), o.value.address, d.value.address, u.value.bits))
            else Err(BadLength)
  }

  /** Parsing an element leaves an element of its kind. */
  lemma ParseKeepsKind(was: Element, src: seq<bool>, rp: nat)
    ensures var r := ParseLv(was, src, rp);
            r.Ok? ==> KindOf(r.value.value) == KindOf(was)
  {
  }

  /** Exact accounting: the frame fills exactly bitsNeeded bits. */
  lemma RpAccounting(v: RpFields)
    requires WholeOctets(v.tpdu)
    ensures |RpBits(v)| == RpBitsNeeded(v)
  {
    LvLength(Number(v.originator));
    LvLength(Number(v.destination));
    LvLength(Pdu(v.tpdu));
  }

  lemma OctetsAreWhole(bits: seq<bool>, octets: nat)
    requires |bits| == 8 * octets
    ensures WholeOctets(bits)
  {
  }

  /** Read positions of the second and third element. */
  function DestinationAt(v: RpFields): nat {
    24 + 8 * ValueLength(Number(v.originator))
  }

  function TpduAt(v: RpFields): nat {
    DestinationAt(v) + 8 + 8 * ValueLength(Number(v.destination))
  }

  /** The reference and the three elements stand where the parser looks for them. */
  ghost predicate ElementsStand(v: RpFields, src: seq<bool>) {
    && |src| >= 16
    && At(src, 8, MsbBits(v.reference, 8))
    && At(src, 16, LvBits(Number(v.originator)))
    && At(src, DestinationAt(v), LvBits(Number(v.destination)))
    && At(src, TpduAt(v), LvBits(Pdu(v.tpdu)))
  }

  lemma RpElementsStand(v: RpFields)
    ensures ElementsStand(v, RpBits(v))
  {
    var src := RpBits(v);
    var o, d, u := LvBits(Number(v.originator)), LvBits(Number(v.destination)), LvBits(Pdu(v.tpdu));
    LvLength(Number(v.originator));
    LvLength(Number(v.destination));
    AtSlice(src, 0, src);
    AtSplit(src, 0, RpHeader(v.reference), RpBody(v));
    AtSplit(src, 0, MsbBits(0, 5) + MsbBits(1, 3), MsbBits(v.reference, 8));
    AtSplit(src, 16, o + d, u);
    AtSplit(src, 16, o, d);
  }

  lemma ReferenceReadsBack(v: RpFields, src: seq<bool>)
    requires v.reference < 256 && ElementsStand(v, src)
    ensures Field(src, 8, 8) == v.reference
  {
    assert Pow2(8) == 256;
    FieldAt(src, 8, v.reference, 8);
  }

  /** An address written at rp reads back into a new object, up to next. */
  lemma AddressReadsBack(a: Address, src: seq<bool>, rp: nat, next: nat)
    requires AddressOk(a) && At(src, rp, LvBits(Number(a)))
    requires next == rp + 8 + 8 * ValueLength(Number(a))
    ensures ParseLv(Number(NO_ADDRESS), src, rp) == Ok(Parsed(Number(a), next))
  {
    LvReadsBack(Number(NO_ADDRESS), Number(a), src, rp, next);
  }

  lemma TpduReadsBack(was: Element, tpdu: seq<bool>, src: seq<bool>, rp: nat, next: nat)
    requires was.Pdu? && was.bits == []
    requires WholeOctets(tpdu) && |tpdu| < 8 * 256 && At(src, rp, LvBits(Pdu(tpdu)))
    requires next == rp + 8 + 8 * ValueLength(Pdu(tpdu))
    ensures ParseLv(was, src, rp) == Ok(Parsed(Pdu(tpdu), next))
  {
    LvReadsBack(was, Pdu(tpdu), src, rp, next);
  }

  lemma RpParses(src: seq<bool>, v: RpFields, was: Element, rp1: nat, rp2: nat, rp3: nat)
    requires |src| >= 16 && Field(src, 8, 8) == v.reference && was == Pdu(NEW_RP.tpdu)
    requires ParseLv(Number(NO_ADDRESS), src, 16) == Ok(Parsed(Number(v.originator), rp1))
    requires ParseLv(Number(NO_ADDRESS), src, rp1) == Ok(Parsed(Number(v.destination), rp2))
    requires ParseLv(was, src, rp2) == Ok(Parsed(Pdu(v.tpdu), rp3))
    ensures ParseRp(NEW_RP, src) == Ok(v)
  {
  }

  lemma OriginatorReadsBack(v: RpFields, src: seq<bool>, next: nat)
    requires RpOk(v) && ElementsStand(v, src) && next == DestinationAt(v)
    ensures ParseLv(Number(NO_ADDRESS), src, 16) == Ok(Parsed(Number(v.originator), next))
  {
    AddressReadsBack(v.originator, src, 16, next);
  }

  lemma DestinationReadsBack(v: RpFields, src: seq<bool>, at: nat, next: nat)
    requires RpOk(v) && ElementsStand(v, src) && at == DestinationAt(v) && next == TpduAt(v)
    ensures ParseLv(Number(NO_ADDRESS), src, at) == Ok(Parsed(Number(v.destination), next))
  {
    AddressReadsBack(v.destination, src, at, next);
  }

  lemma UserDataReadsBack(v: RpFields, was: Element, src: seq<bool>, at: nat, next: nat)
    requires RpOk(v) && ElementsStand(v, src) && was == Pdu(NEW_RP.tpdu)
    requires at == TpduAt(v) && next == at + 8 + 8 * ValueLength(Pdu(v.tpdu))
    ensures ParseLv(was, src, at) == Ok(Parsed(Pdu(v.tpdu), next))
  {
    TpduReadsBack(was, v.tpdu, src, at, next);
  }

  lemma RpReadsBack(v: RpFields, src: seq<bool>, was: Element, rp1: nat, rp2: nat, rp3: nat)
    requires RpOk(v) && ElementsStand(v, src) && was == Pdu(NEW_RP.tpdu)
    requires rp1 == DestinationAt(v) && rp2 == TpduAt(v) && rp3 == rp2 + 8 + 8 * ValueLength(Pdu(v.tpdu))
    ensures ParseRp(NEW_RP, src) == Ok(v)
  {
    ReferenceReadsBack(v, src);
    OriginatorReadsBack(v, src, rp1);
    DestinationReadsBack(v, src, rp1, rp2);
    UserDataReadsBack(v, was, src, rp2, rp3);
    RpParses(src, v, was, rp1, rp2, rp3);
  }

  /** Round trip: reading a written frame into a new object gives the same fields. */
  lemma RpRoundTrip(v: RpFields)
    requires RpOk(v)
    ensures ParseRp(NEW_RP, RpBits(v)) == Ok(v)
  {
    var end := TpduAt(v) + 8 + 8 * ValueLength(Pdu(v.tpdu));
    RpElementsStand(v);
    RpReadsBack(v, RpBits(v), Pdu(NEW_RP.tpdu), DestinationAt(v), TpduAt(v), end);
  }

  /** An RP-DATA message as the program holds it. */
  class RPData {
    var reference: nat
    var originator: Address
    var destination: Address
    var tpdu: seq<bool>

    ghost function Fields(): RpFields
      reads this
    {
      RpFields(reference, originator, destination, tpdu)
    }

    constructor ()
      ensures Fields() == NEW_RP
    {
      reference, originator, destination, tpdu := 0, NO_ADDRESS, NO_ADDRESS, [];
    }

    /** RPMessage::write with RPData::writeBody into a frame of bitsNeeded bits. */
    method Write() returns (dest: array<bool>)
      requires WholeOctets(tpdu)
      ensures fresh(dest) && dest.Length == RpBitsNeeded(Fields())
      ensures dest[..] == RpBits(Fields())
    {
      RpAccounting(Fields());
      dest := new bool[8 * (2 + (1 + ValueLength(Number(originator))) + (1 + ValueLength(Number(destination)))
                            + (1 + ValueLength(Pdu(tpdu))))];
      ghost var blank := dest[..];
      var wp := WriteHeader(dest, reference);
      wp := AppendLv(dest, blank, RpHeader(reference), wp, Number(originator));
      wp := AppendLv(dest, blank, RpHeader(reference) + LvBits(Number(originator)), wp, Number(destination));
      wp := AppendLv(dest, blank, RpHeader(reference) + LvBits(Number(originator)) + LvBits(Number(destination)),
                     wp, Pdu(tpdu));
      RpBitsInOrder(Fields());
      OverwriteAll(blank, RpBits(Fields()));
    }

    /** RPMessage::parse with RPData::parseBody. */
    method Parse(src: seq<bool>) returns (r: Option<ReadError>)
      modifies this
      ensures match old(ParseRp(Fields(), src))
              case Ok(v) => r == None && Fields() == v
              case Err(why) => r == Some(why)
    {
      if |src| < 16 {
        return Some(PastEnd);
      }
      reference := Field(src, 8, 8);
      var o := ParseLv(Number(originator), src, 16);
      ParseKeepsKind(Number(originator), src, 16);
      if o.Err? {
        return Some(o.error);
      }
      originator := o.value.value.address;
      var d := ParseLv(Number(destination), src, o.value.rp);
      ParseKeepsKind(Number(destination), src, o.value.rp);
      if d.Err? {
        return Some(d.error);
      }
      destination := d.value.value.address;
      var u := ParseLv(Pdu(tpdu), src, d.value.rp);
      ParseKeepsKind(Pdu(tpdu), src, d.value.rp);
      if u.Err? {
        return Some(u.error);
      }
      tpdu := u.value.value.bits;
      return None;
    }
  }

  lemma RpBitsInOrder(v: RpFields)
    ensures RpHeader(v.reference) + LvBits(Number(v.originator)) + LvBits(Number(v.destination)) + LvBits(Pdu(v.tpdu))
            == RpBits(v)
  {
  }

  /** writeLV behind what has been written so far. */
  method AppendLv(dest: array<bool>, ghost blank: seq<bool>, ghost written: seq<bool>, wp: nat, e: Element)
    returns (next: nat)
    requires wp == |written| && wp + |LvBits(e)| <= dest.Length == |blank|
    requires dest[..] == Overwrite(blank, 0, written)
    modifies dest
    ensures next == wp + |LvBits(e)|
    ensures dest[..] == Overwrite(blank, 0, written + LvBits(e))
  {
    next := WriteLv(dest, wp, e);
    OverwriteTwice(blank, 0, written, LvBits(e));
  }

  method WriteHeader(dest: array<bool>, reference: nat) returns (wp: nat)
    requires dest.Length >= 16
    modifies dest
    ensures wp == 16 && dest[..] == Overwrite(old(dest[..]), 0, RpHeader(reference))
  {
    wp := WriteField(dest, 0, 0, 5);
    wp := WriteField(dest, wp, 0 + 1, 3);
    OverwriteTwice(old(dest[..]), 0, MsbBits(0, 5), MsbBits(1, 3));
    wp := WriteField(dest, wp, reference, 8);
    OverwriteTwice(old(dest[..]), 0, MsbBits(0, 5) + MsbBits(1, 3), MsbBits(reference, 8));
  }

  // ---- CP-DATA ----

  const SMS_PD: nat := 9
  const CP_DATA: nat := 1

  /** The frame of CPMessage::write for CP-DATA: transaction, protocol, type, then the RPDU. */
  function CpBits(ti: nat, rpdu: seq<bool>): seq<bool> {
    MsbBits(ti, 4) + MsbBits(SMS_PD, 4) + MsbBits(CP_DATA, 8) + LvBits(Pdu(rpdu))
  }

  /** parseSMS on a frame, for the one message type that carries data. */
  function ParseCp(src: seq<bool>): Result<(nat, seq<bool>), ReadError> {
    if |src| < 16 then Err(PastEnd)
    else if Field(src, 8, 8) != CP_DATA then Err(BadExtension)
    else
      match ParseLv(Pdu([]), src, 16)
      case Err(why) => Err(why)
      case Ok(u) => if u.value.Pdu? then Ok((Field(src, 0, 4), u.value.bits)) else Err(BadLength)
  }

  /** A CP-DATA message as the program holds it. */
  class CPData {
    var ti: nat
    var rpdu: seq<bool>

    constructor (ti: nat, rpdu: seq<bool>)
      ensures this.ti == ti && this.rpdu == rpdu
    {
      this.ti, this.rpdu := ti, rpdu;
    }

    /** CPMessage::write with CPData::writeBody into a frame of bitsNeeded bits. */
    method Write() returns (dest: array<bool>)
      requires WholeOctets(rpdu)
      ensures fresh(dest) && dest.Length == 24 + |rpdu| && dest[..] == CpBits(ti, rpdu)
    {
      LvLength(Pdu(rpdu));
      dest := new bool[24 + |rpdu|];
      ghost var blank := dest[..];
      var wp := WriteField(dest, 0, ti, 4);
      wp := WriteField(dest, wp, SMS_PD, 4);
      OverwriteTwice(blank, 0, MsbBits(ti, 4), MsbBits(SMS_PD, 4));
      wp := WriteField(dest, wp, CP_DATA, 8);
      OverwriteTwice(blank, 0, MsbBits(ti, 4) + MsbBits(SMS_PD, 4), MsbBits(CP_DATA, 8));
      wp := AppendLv(dest, blank, MsbBits(ti, 4) + MsbBits(SMS_PD, 4) + MsbBits(CP_DATA, 8), wp, Pdu(rpdu));
      OverwriteAll(blank, CpBits(ti, rpdu));
    }

    /** parseSMS for CP-DATA, with CPData::parseBody. */
    method Parse(src: seq<bool>) returns (r: Option<ReadError>)
      modifies this
      ensures match ParseCp(src)
              case Ok(v) => r == None && (ti, rpdu) == v
              case Err(why) => r == Some(why)
    {
      if |src| < 16 {
        return Some(PastEnd);
      }
      if Field(src, 8, 8) != CP_DATA {
        return Some(BadExtension);
      }
      ti := Field(src, 0, 4);
      var u := ParseLv(Pdu([]), src, 16);
      ParseKeepsKind(Pdu([]), src, 16);
      if u.Err? {
        return Some(u.error);
      }
      rpdu := u.value.value.bits;
      return None;
    }
  }

  lemma CpRoundTrip(ti: nat, rpdu: seq<bool>)
    requires ti < 16 && WholeOctets(rpdu) && |rpdu| < 8 * 256
    ensures |CpBits(ti, rpdu)| == 24 + |rpdu|
    ensures ParseCp(CpBits(ti, rpdu)) == Ok((ti, rpdu))
  {
    var src := CpBits(ti, rpdu);
    LvLength(Pdu(rpdu));
    AtSlice(src, 0, src);
    AtSplit(src, 0, MsbBits(ti, 4) + MsbBits(SMS_PD, 4) + MsbBits(CP_DATA, 8), LvBits(Pdu(rpdu)));
    AtSplit(src, 0, MsbBits(ti, 4) + MsbBits(SMS_PD, 4), MsbBits(CP_DATA, 8));
    AtSplit(src, 0, MsbBits(ti, 4), MsbBits(SMS_PD, 4));
    assert Pow2(4) == 16 && Pow2(8) == 256;
    FieldAt(src, 0, ti, 4);
    FieldAt(src, 8, CP_DATA, 8);
    LvReadsBack(Pdu([]), Pdu(rpdu), src, 16, 24 + |rpdu|);
  }

  /** Both layers: an RP-DATA message written into a CP-DATA message comes out of the outer parser
      whole and out of the inner one with the same fields, whenever it fits the outer length octet. */
  lemma NestedRoundTrip(ti: nat, v: RpFields, rpdu: seq<bool>)
    requires ti < 16 && RpOk(v) && RpBitsNeeded(v) < 8 * 256 && rpdu == RpBits(v)
    ensures |CpBits(ti, rpdu)| == 24 + RpBitsNeeded(v)
    ensures ParseCp(CpBits(ti, rpdu)) == Ok((ti, rpdu))
    ensures ParseRp(NEW_RP, rpdu) == Ok(v)
  {
    RpAccounting(v);
    OctetsAreWhole(rpdu, RpLength(v));
    CpRoundTrip(ti, rpdu);
    RpRoundTrip(v);
  }

  // ---- The SMS address ----

  /** TLAddress::write counts characters, a leading plus included. */
  function TlAddressBits(a: Address): seq<bool> {
    MsbBits(|a.digits|, 8) + TypeBits(a) + DigitBits(a.digits)
  }

  /** TLAddress::parse */
  function ParseTlAddress(src: seq<bool>, rp: nat): Result<Parsed<Address>, ReadError> {
    if rp + 16 > |src| then Err(PastEnd)
    else if Field(src, rp + 8, 1) != 1 then Err(BadExtension)
    else
      var ton := Field(src, rp + 9, 3);
      match ParseOctets(src, rp + 16, OctetsFor(Field(src, rp, 8)), PlusIf(ton == INTERNATIONAL))
      case Ok(p) => Ok(Parsed(Address(ton, Field(src, rp + 12, 4), p.value), p.rp))
      case Err(why) => Err(why)
  }

  /** TLAddress::write */
  method WriteTlAddress(dest: array<bool>, wp: nat, a: Address) returns (next: nat)
    requires wp + 16 + 8 * LengthV(a.digits) <= dest.Length
    modifies dest
    ensures next == wp + 16 + 8 * LengthV(a.digits)
    ensures dest[..] == Overwrite(old(dest[..]), wp, TlAddressBits(a))
  {
    ghost var was := dest[..];
    next := WriteField(dest, wp, |a.digits|, 8);
    next := WriteType(dest, next, a);
    OverwriteTwice(was, wp, MsbBits(|a.digits|, 8), TypeBits(a));
    next := WriteDigits(dest, next, a.digits);
    OverwriteTwice(was, wp, MsbBits(|a.digits|, 8) + TypeBits(a), DigitBits(a.digits));
  }

  ghost predicate TlAddressOk(a: Address) {
    a.ton < 8 && a.plan < 16 && WellFormed(a.digits) && (a.ton == INTERNATIONAL <==> HasPlus(a.digits))
  }

  lemma TlHeaderReadsBack(src: seq<bool>, rp: nat, a: Address)
    requires TlAddressOk(a) && At(src, rp, TlAddressBits(a))
    ensures rp + 16 <= |src| && Field(src, rp, 8) == |a.digits| && Field(src, rp + 8, 1) == 1
    ensures Field(src, rp + 9, 3) == a.ton && Field(src, rp + 12, 4) == a.plan
    ensures At(src, rp + 16, DigitBits(a.digits))
  {
    AtSplit(src, rp, MsbBits(|a.digits|, 8) + TypeBits(a), DigitBits(a.digits));
    AtSplit(src, rp, MsbBits(|a.digits|, 8), TypeBits(a));
    assert Pow2(8) == 256;
    FieldAt(src, rp, |a.digits|, 8);
    TypeReadsBack(src, rp + 8, a);
  }

  /** The condition under which the counted characters give the right number of octets. */
  predicate CountsRight(digits: string) {
    !HasPlus(digits) || |Dialed(digits)| % 2 == 1
  }

  lemma CountsRightMeans(digits: string)
    ensures CountsRight(digits) <==> OctetsFor(|digits|) == LengthV(digits)
    ensures !CountsRight(digits) ==> OctetsFor(|digits|) == LengthV(digits) + 1
  {
  }

  /** What parse makes of an address whose header is as written: it reads `octets` octets of digits. */
  lemma TlParses(src: seq<bool>, rp: nat, a: Address, octets: nat, after: nat)
    requires rp + 16 <= |src| && Field(src, rp + 8, 1) == 1 && OctetsFor(Field(src, rp, 8)) == octets
    requires Field(src, rp + 9, 3) == a.ton && Field(src, rp + 12, 4) == a.plan && after == rp + 16 + 8 * octets
    ensures var digits := ParseOctets(src, rp + 16, octets, PlusIf(a.ton == INTERNATIONAL));
            var r := ParseTlAddress(src, rp);
            && (digits.Err? ==> r.Err?)
            && (digits.Ok? ==> r == Ok(Parsed(Address(a.ton, a.plan, digits.value.value), after)))
  {
  }

  lemma TlLength(a: Address)
    ensures |TlAddressBits(a)| == 16 + 8 * LengthV(a.digits)
  {
  }

  /** The length octet counts the plus, so an address reads back, with the read position behind
      it, exactly when it has no plus or an odd number of digits. */
  lemma TlAddressRoundTrip(src: seq<bool>, rp: nat, a: Address, next: nat)
    requires TlAddressOk(a) && At(src, rp, TlAddressBits(a)) && next == rp + |TlAddressBits(a)|
    ensures ParseTlAddress(src, rp) == Ok(Parsed(a, next)) <==> CountsRight(a.digits)
  {
    var octets, length := OctetsFor(|a.digits|), LengthV(a.digits);
    TlLength(a);
    CountsRightMeans(a.digits);
    TlHeaderReadsBack(src, rp, a);
    TlParses(src, rp, a, octets, rp + 16 + 8 * octets);
    DialedStand(a, src, rp + 16, length, next);
    TlCounts(src, rp, a, octets, length, next);
  }

  /** Reading the octets that are there gives the address; reading another number of them leaves the
      read position elsewhere. */
  lemma TlCounts(src: seq<bool>, rp: nat, a: Address, octets: nat, length: nat, next: nat)
    requires next == rp + 16 + 8 * length
    requires ParseOctets(src, rp + 16, length, PlusIf(a.ton == INTERNATIONAL)) == Ok(Parsed(a.digits, next))
    requires var digits := ParseOctets(src, rp + 16, octets, PlusIf(a.ton == INTERNATIONAL));
             var r := ParseTlAddress(src, rp);
             && (digits.Err? ==> r.Err?)
             && (digits.Ok? ==> r == Ok(Parsed(Address(a.ton, a.plan, digits.value.value), rp + 16 + 8 * octets)))
    ensures ParseTlAddress(src, rp) == Ok(Parsed(a, next)) <==> octets == length
  {
  }

  /** One octet too many: when the plus makes the count wrong, a parser that succeeds at all stands an
      octet behind the address. */
  lemma TlOverrun(src: seq<bool>, rp: nat, a: Address, next: nat)
    requires TlAddressOk(a) && At(src, rp, TlAddressBits(a)) && next == rp + |TlAddressBits(a)|
    requires !CountsRight(a.digits)
    ensures var r := ParseTlAddress(src, rp); r.Ok? ==> r.value.rp == next + 8
  {
    TlLength(a);
    CountsRightMeans(a.digits);
    TlHeaderReadsBack(src, rp, a);
    TlParses(src, rp, a, OctetsFor(|a.digits|), next + 8);
  }

  /** No element that is read is longer than a length octet can say. */
  lemma TpduFits(src: seq<bool>)
    ensures var r := ParseRp(NEW_RP, src); r.Ok? ==> |r.value.tpdu| <= 8 * 255
  {
    if |src| >= 16 {
      var o := ParseLv(Number(NEW_RP.originator), src, 16);
      if o.Ok? {
        var d := ParseLv(Number(NEW_RP.destination), src, o.value.rp);
        if d.Ok? {
          PduFits(Pdu(NEW_RP.tpdu), src, d.value.rp);
        }
      }
    }
  }

  lemma PduFits(was: Element, src: seq<bool>, rp: nat)
    requires was.Pdu? && was.bits == []
    ensures var r := ParseLv(was, src, rp); r.Ok? && r.value.value.Pdu? ==> |r.value.value.bits| <= 8 * 255
  {
    if rp + 8 <= |src| {
      assert Pow2(8) == 256;
      assert Field(src, rp, 8) <= 255;
    }
  }
}
