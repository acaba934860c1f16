/** SMS-DELIVER (section 9.2.2.1 of GSM 03.40): the transfer layer message that carries a text down
    to a handset, written field by field, and the relay layer message around it. */
module Deliver {
  import opened Wrappers
  import opened Bits
  import opened BcdDigits
  import opened Layers
  import opened RelayLayer
  import opened UserData

  /** A TLDeliver: originating address, protocol identifier, the 56 bits of its time stamp, data. */
  datatype DeliverFields = DeliverFields(oa: Address, pid: nat, scts: seq<bool>, ud: UdFields)

  const NATIONAL: nat := 2
  const E164: nat := 1

  /** An address made of a C string, which is cut after 20 characters. */
  function AddressOf(digits: string): Address {
    var kept := if |digits| > MAX_DIGITS then digits[..MAX_DIGITS] else digits;
    Address(if HasPlus(digits) then INTERNATIONAL else NATIONAL, E164, kept)
  }

  /** The first octet: only the header indicator and "no more messages" can be set. */
  function HeaderBits(udhi: bool): (b: seq<bool>)
    ensures |b| == 8
  {
    [false, udhi, false, false, false, true, false, false]
  }

  /** Protocol identifier and data coding scheme. */
  function CodeBits(pid: nat, dcs: nat): (b: seq<bool>)
    ensures |b| == 16
  {
    MsbBits(pid, 8) + MsbBits(dcs, 8)
  }

  /** The fields between the first octet and the user data. */
  function MiddleBits(d: DeliverFields): (b: seq<bool>)
    ensures |b| == 32 + 8 * LengthV(d.oa.digits) + |d.scts|
  {
    TlAddressBits(d.oa) + CodeBits(d.pid, d.ud.dcs) + d.scts
  }

  /** The frame of TLMessage::write with TLDeliver::writeBody. */
  function DeliverBits(d: DeliverFields): seq<bool> {
    HeaderBits(d.ud.udhi) + MiddleBits(d) + WireBits(d.ud)
  }

  /** length: octets of the message. */
  function DeliverLength(d: DeliverFields): nat {
    1 + (2 + LengthV(d.oa.digits)) + 1 + 1 + 7 + (1 + (|d.ud.raw| + 7) / 8)
  }

  ghost predicate DeliverOk(d: DeliverFields) {
    |d.scts| == 56 && WholeOctets(d.ud.raw)
  }

  /** Where the user data start. */
  function UserDataAt(d: DeliverFields): nat {
    96 + 8 * LengthV(d.oa.digits)
  }

  /** Exact accounting: the frame fills exactly bitsNeeded bits. */
  lemma DeliverAccounting(d: DeliverFields)
    requires DeliverOk(d)
    ensures |DeliverBits(d)| == 8 * DeliverLength(d) == UserDataAt(d) + |WireBits(d.ud)|
  {
    RoundedOctets(d.ud.raw);
  }

  lemma RoundedOctets(raw: seq<bool>)
    requires WholeOctets(raw)
    ensures 8 * ((|raw| + 7) / 8) == |raw|
  {
  }

  lemma UserDataStand(d: DeliverFields)
    requires DeliverOk(d)
    ensures UserDataAt(d) <= |DeliverBits(d)| && DeliverBits(d)[UserDataAt(d)..] == WireBits(d.ud)
  {
    var front := HeaderBits(d.ud.udhi) + MiddleBits(d);
    assert |front| == UserDataAt(d);
    assert (front + WireBits(d.ud))[|front|..] == WireBits(d.ud);
  }

  /** The bits of the first octet, each put in its place. */
  method WriteHeaderBits(dest: array<bool>, udhi: bool)
    requires dest.Length >= 8
    modifies dest
    ensures dest[..] == Overwrite(old(dest[..]), 0, HeaderBits(udhi))
  {
    dest[6], dest[7] := false, false;
    dest[5] := true;
    dest[0] := false;
    dest[1] := udhi;
    dest[2] := false;
    dest[3], dest[4] := false, false;
  }

  method WriteCodes(dest: array<bool>, wp: nat, pid: nat, dcs: nat) returns (next: nat)
    requires wp + 16 <= dest.Length
    modifies dest
    ensures next == wp + 16
    ensures dest[..] == Overwrite(old(dest[..]), wp, CodeBits(pid, dcs))
  {
    next := WriteField(dest, wp, pid, 8);
    next := WriteField(dest, next, dcs, 8);
    OverwriteTwice(old(dest[..]), wp, MsbBits(pid, 8), MsbBits(dcs, 8));
  }

  method WriteAddressAndCodes(dest: array<bool>, wp: nat, a: Address, pid: nat, dcs: nat) returns (next: nat)
    requires wp + |TlAddressBits(a)| + 16 <= dest.Length
    modifies dest
    ensures next == wp + |TlAddressBits(a)| + 16
    ensures dest[..] == Overwrite(old(dest[..]), wp, TlAddressBits(a) + CodeBits(pid, dcs))
  {
    next := WriteTlAddress(dest, wp, a);
    next := WriteCodes(dest, next, pid, dcs);
    OverwriteTwice(old(dest[..]), wp, TlAddressBits(a), CodeBits(pid, dcs));
  }

  method WriteMiddle(dest: array<bool>, wp: nat, d: DeliverFields) returns (next: nat)
    requires wp + |MiddleBits(d)| <= dest.Length
    modifies dest
    ensures next == wp + |MiddleBits(d)|
    ensures dest[..] == Overwrite(old(dest[..]), wp, MiddleBits(d))
  {
    next := WriteAddressAndCodes(dest, wp, d.oa, d.pid, d.ud.dcs);
    OverwriteTwice(old(dest[..]), wp, TlAddressBits(d.oa) + CodeBits(d.pid, d.ud.dcs), d.scts);
    WriteBits(dest, next, d.scts);
    next := next + |d.scts|;
  }

  /** TLMessage::write for a TLDeliver. */
  method WriteDeliver(d: DeliverFields) returns (dest: array<bool>)
    requires DeliverOk(d)
    ensures fresh(dest) && dest.Length == 8 * DeliverLength(d) && dest[..] == DeliverBits(d)
  {
    DeliverAccounting(d);
    dest := new bool[8 * DeliverLength(d)];
    ghost var blank := dest[..];
    ghost var h, m := HeaderBits(d.ud.udhi), MiddleBits(d);
    WriteHeaderBits(dest, d.ud.udhi);
    var wp := WriteMiddle(dest, 8, d);
    OverwriteTwice(blank, 0, h, m);
    ghost var was := dest[..];
    wp := WriteUserData(dest, wp, d.ud.length, d.ud.raw);
    LastFieldWritten(was, |h + m|, d.ud);
    OverwriteTwice(blank, 0, h + m, WireBits(d.ud));
    OverwriteAll(blank, DeliverBits(d));
  }

  // ---- In the relay layer ----

  /** The RP-DATA message for a SMS-DELIVER: only the originating service center is given. */
  function RelayOf(reference: nat, smsc: Address, d: DeliverFields): RpFields {
    RpFields(reference, smsc, NO_ADDRESS, DeliverBits(d))
  }

  /** What is needed for the length octets to hold: seven bit texts of a handset's size always fit. */
  ghost predicate RelayOk(reference: nat, smsc: Address, d: DeliverFields) {
    && reference < 256 && AddressOk(smsc)
    && DeliverOk(d) && DeliverLength(d) < 256
  }

  /** The longest text that one length octet can count always fits the relay layer. */
  lemma EncodedFits(d: DeliverFields, text: string)
    requires |d.scts| == 56 && d.ud == Encoded(text) && |text| <= 255 && LengthV(d.oa.digits) <= 10
    ensures DeliverOk(d) && DeliverLength(d) < 256
  {
  }

  lemma RelayCarries(reference: nat, smsc: Address, d: DeliverFields)
    requires RelayOk(reference, smsc, d)
    ensures ParseRp(NEW_RP, RpBits(RelayOf(reference, smsc, d))) == Ok(RelayOf(reference, smsc, d))
  {
    DeliverAccounting(d);
    OctetsAreWhole(DeliverBits(d), DeliverLength(d));
    assert AddressOk(NO_ADDRESS);
    RpRoundTrip(RelayOf(reference, smsc, d));
  }
}
