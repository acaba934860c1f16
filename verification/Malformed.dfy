/** What the parsers of the layers refuse: frames that are cut short, numbers that are too long, and
    headers that are not what they should be. */
module Malformed {
  import opened Wrappers
  import opened Bits
  import opened BcdDigits
  import opened Layers
  import opened RelayLayer
  import opened UserData

  // ---- Numbers ----

  /** Digits in k octets: two to an octet, but one where the high half is 15. */
  function DigitsIn(src: seq<bool>, rp: nat, k: nat): (n: nat)
    requires rp + 8 * k <= |src|
    ensures k <= n <= 2 * k
  {
    if k == 0 then 0 else DigitsIn(src, rp, k - 1) + (if Field(src, rp + 8 * k - 8, 4) == 15 then 1 else 2)
  }

  /** A number is read exactly when all its octets are in the frame and its digits, with the plus, are
      at most 20; then every digit is there. */
  lemma {:induction false} NumberRead(src: seq<bool>, rp: nat, octets: nat, start: string)
    requires |start| <= 20 && rp <= |src|
    ensures DigitsAfter(src, rp, start, octets).Ok? <==>
            rp + 8 * octets <= |src| && |start| + DigitsIn(src, rp, octets) <= 20
    ensures var r := DigitsAfter(src, rp, start, octets);
            r.Ok? ==> |r.value| == |start| + DigitsIn(src, rp, octets)
  {
    if octets > 0 {
      NumberRead(src, rp, octets - 1, start);
      assert Pow2(4) == 16;
      DigitsStep(src, rp, octets, start);
    }
  }

  lemma DigitsStep(src: seq<bool>, rp: nat, k: nat, start: string)
    requires k > 0
    ensures DigitsAfter(src, rp, start, k)
            == match DigitsAfter(src, rp, start, k - 1)
               case Err(why) => Err(why)
               case Ok(digits) => OneOctet(src, rp + 8 * k - 8, digits)
  {
  }

  // ---- Headers ----

  /** An octet in front of the digits without its extension bit is refused in either kind of address. */
  lemma ExtensionNeeded(src: seq<bool>, rp: nat, was: Address)
    requires rp + 16 <= |src| && !src[rp + 8] && Field(src, rp, 8) > 0
    ensures ParseLv(Number(was), src, rp) == Err(BadExtension)
    ensures ParseTlAddress(src, rp) == Err(BadExtension)
  {
    assert Field(src, rp + 8, 1) == 0;
  }

  /** Data are decoded only in a seven bit coding, 0 or 244 to 247, and only when they hold the septets
      that they count. */
  lemma DataRefused(v: UdFields)
    ensures v.dcs != 0 && !(244 <= v.dcs <= 247) ==> Decode(v) == Err(UnsupportedDcs)
    ensures (v.dcs == 0 || 244 <= v.dcs <= 247) && 7 * v.length > |v.raw| ==> Decode(v) == Err(BadlyFormatted)
    ensures (v.dcs == 0 || 244 <= v.dcs <= 247) && 7 * v.length <= |v.raw| && !v.udhi ==>
              Decode(v).Ok? && |Decode(v).value| == v.length
  {
  }

  // ---- Frames that are cut short ----

  lemma {:induction false} FieldInFront(src: seq<bool>, n: nat, rp: nat, length: nat)
    requires rp + length <= n <= |src|
    ensures Field(src[..n], rp, length) == Field(src, rp, length)
  {
    if length > 0 {
      FieldInFront(src, n, rp, length - 1);
    }
  }

  lemma OctetInFront(src: seq<bool>, n: nat, at: nat, digits: string)
    requires n <= |src| && OneOctet(src[..n], at, digits).Ok?
    ensures at + 8 <= n && OneOctet(src, at, digits) == OneOctet(src[..n], at, digits)
  {
    FieldInFront(src, n, at, 4);
    FieldInFront(src, n, at + 4, 4);
  }

  /** Front reads like src up to k octets. */
  ghost predicate ReadsAlike(src: seq<bool>, front: seq<bool>, rp: nat, start: string, k: nat) {
    rp + 8 * k <= |front| && DigitsAfter(src, rp, start, k) == DigitsAfter(front, rp, start, k)
  }

  lemma OkBefore(src: seq<bool>, rp: nat, start: string, k: nat)
    requires k > 0 && DigitsAfter(src, rp, start, k).Ok?
    ensures DigitsAfter(src, rp, start, k - 1).Ok?
    ensures OneOctet(src, rp + 8 * k - 8, DigitsAfter(src, rp, start, k - 1).value).Ok?
  {
  }

  lemma OctetAlike(src: seq<bool>, front: seq<bool>, rp: nat, start: string, k: nat, digits: string, at: nat)
    requires k > 0 && at == rp + 8 * k - 8 && at + 8 <= |front|
    requires DigitsAfter(src, rp, start, k - 1) == Ok(digits) && DigitsAfter(front, rp, start, k - 1) == Ok(digits)
    requires OneOctet(src, at, digits) == OneOctet(front, at, digits)
    ensures ReadsAlike(src, front, rp, start, k)
  {
    OctetStep(front, rp, start, k, digits, at);
    OctetStep(src, rp, start, k, digits, at);
  }

  lemma OneMoreAlike(src: seq<bool>, front: seq<bool>, n: nat, rp: nat, start: string, k: nat)
    requires k > 0 && n <= |src| && front == src[..n] && DigitsAfter(front, rp, start, k).Ok?
    requires ReadsAlike(src, front, rp, start, k - 1)
    ensures ReadsAlike(src, front, rp, start, k)
  {
    OkBefore(front, rp, start, k);
    var at, digits := rp + 8 * k - 8, DigitsAfter(front, rp, start, k - 1).value;
    OctetInFront(src, n, at, digits);
    OctetAlike(src, front, rp, start, k, digits, at);
  }

  /** What can be read from the front of a frame is what would be read from the whole of it. */
  lemma {:induction false} DigitsInFront(src: seq<bool>, front: seq<bool>, n: nat, rp: nat, start: string, k: nat)
    requires n <= |src| && front == src[..n] && rp <= n && DigitsAfter(front, rp, start, k).Ok?
    ensures ReadsAlike(src, front, rp, start, k)
  {
    if k > 0 {
      OkBefore(front, rp, start, k);
      DigitsInFront(src, front, n, rp, start, k - 1);
      OneMoreAlike(src, front, n, rp, start, k);
    }
  }

  lemma NumberInFront(src: seq<bool>, n: nat, rp: nat, expected: nat)
    requires n <= |src| && rp <= n && expected > 0 && ParseV(NumberKind, src[..n], rp, expected).Ok?
    ensures ParseV(NumberKind, src, rp, expected) == ParseV(NumberKind, src[..n], rp, expected)
    ensures rp + 8 * expected <= n
  {
    FieldInFront(src, n, rp, 1);
    FieldInFront(src, n, rp + 1, 3);
    FieldInFront(src, n, rp + 4, 4);
    OctetsInFront(src, n, rp + 8, PlusIf(Field(src, rp + 1, 3) == INTERNATIONAL), expected - 1);
  }

  lemma OctetsInFront(src: seq<bool>, n: nat, rp: nat, start: string, k: nat)
    requires n <= |src| && rp <= n && ParseOctets(src[..n], rp, k, start).Ok?
    ensures rp + 8 * k <= n && ParseOctets(src, rp, k, start) == ParseOctets(src[..n], rp, k, start)
  {
    DigitsInFront(src, src[..n], n, rp, start, k);
  }

  lemma PduInFront(src: seq<bool>, n: nat, rp: nat, expected: nat)
    requires n <= |src| && rp <= n && expected > 0 && ParseV(PduKind, src[..n], rp, expected).Ok?
    ensures ParseV(PduKind, src, rp, expected) == ParseV(PduKind, src[..n], rp, expected)
    ensures rp + 8 * expected <= n
  {
    assert src[..n][rp..rp + 8 * expected] == src[rp..rp + 8 * expected];
  }

  lemma ElementInFront(was: Element, src: seq<bool>, n: nat, rp: nat)
    requires n <= |src| && rp <= n && ParseLv(was, src[..n], rp).Ok?
    ensures ParseLv(was, src, rp) == ParseLv(was, src[..n], rp)
    ensures rp <= ParseLv(was, src, rp).value.rp <= n
  {
    FieldInFront(src, n, rp, 8);
    var expected := Field(src, rp, 8);
    if expected > 0 {
      if was.Number? {
        NumberInFront(src, n, rp + 8, expected);
      } else {
        PduInFront(src, n, rp + 8, expected);
      }
    }
  }

  /** Where the third element of a relay layer message ends. */
  function RelayEnd(was: RpFields, src: seq<bool>): (end: Option<nat>)
  {
    if |src| < 16 then None
    else
      match ParseLv(Number(was.originator), src, 16)
      case Err(_) => None
      case Ok(o) =>
        match ParseLv(Number(was.destination), src, o.rp)
        case Err(_) => None
        case Ok(d) =>
          match ParseLv(Pdu(was.tpdu), src, d.rp)
          case Err(_) => None
          case Ok(u) => Some(u.rp)
  }

  lemma RelayInFront(was: RpFields, src: seq<bool>, n: nat)
    requires n <= |src| && ParseRp(was, src[..n]).Ok?
    ensures RelayEnd(was, src).Some? && RelayEnd(was, src).value <= n
  {
    ElementInFront(Number(was.originator), src, n, 16);
    var o := ParseLv(Number(was.originator), src, 16).value.rp;
    ElementInFront(Number(was.destination), src, n, o);
    var d := ParseLv(Number(was.destination), src, o).value.rp;
    ElementInFront(Pdu(was.tpdu), src, n, d);
  }

  lemma RelayEndsAt(v: RpFields)
    requires RpOk(v)
    ensures |RpBits(v)| == TpduAt(v) + 8 + 8 * ValueLength(Pdu(v.tpdu))
    ensures RelayEnd(NEW_RP, RpBits(v)) == Some(|RpBits(v)|)
  {
    var src := RpBits(v);
    RpElementsStand(v);
    RpAccounting(v);
    OriginatorReadsBack(v, src, DestinationAt(v));
    DestinationReadsBack(v, src, DestinationAt(v), TpduAt(v));
    UserDataReadsBack(v, Pdu(NEW_RP.tpdu), src, TpduAt(v), |src|);
  }

  /** A relay layer message that has lost its end, however little of it, is refused. */
  lemma RelayCutShort(v: RpFields, n: nat)
    requires RpOk(v) && n < |RpBits(v)|
    ensures ParseRp(NEW_RP, RpBits(v)[..n]).Err?
  {
    if ParseRp(NEW_RP, RpBits(v)[..n]).Ok? {
      RelayInFront(NEW_RP, RpBits(v), n);
      RelayEndsAt(v);
    }
  }

  /** And so is one of the connection layer. */
  lemma ConnectionCutShort(ti: nat, rpdu: seq<bool>, n: nat)
    requires ti < 16 && WholeOctets(rpdu) && |rpdu| < 8 * 256 && n < |CpBits(ti, rpdu)|
    ensures ParseCp(CpBits(ti, rpdu)[..n]).Err?
  {
    var src := CpBits(ti, rpdu);
    CpRoundTrip(ti, rpdu);
    if ParseCp(src[..n]).Ok? {
      ElementInFront(Pdu([]), src, n, 16);
    }
  }
}
