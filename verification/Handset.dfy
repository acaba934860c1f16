/** What a handset makes of the frame it is sent: the relay layer, then SMS-DELIVER field by field
    (section 9.2.2.1 of GSM 03.40), the text last. */
module Handset {
  import opened Wrappers
  import opened Bits
  import opened BcdDigits
  import opened Layers
  import opened RelayLayer
  import opened UserData
  import opened Deliver

  /** The text of a SMS-DELIVER: the user data are found behind the address, the protocol identifier,
      the coding scheme and the time stamp, wherever the address turns out to end. */
  function ReadDeliver(tpdu: seq<bool>): Result<string, DataError> {
    match ParseTlAddress(tpdu, 8)
    case Err(_) => Err(Truncated)
    case Ok(a) => ReadBehindAddress(tpdu, a.rp)
  }

  function ReadBehindAddress(tpdu: seq<bool>, at: nat): Result<string, DataError> {
    if at < 8 || at + 72 > |tpdu| then Err(Truncated)
    else
      match ParseUd(UdFields(Field(tpdu, at + 8, 8), tpdu[1], 0, []), tpdu, at + 72)
      case Err(why) => Err(why)
      case Ok(ud) => Decode(ud)
  }

  /** The text that arrives with a relay layer frame. */
  function ReceivedText(frame: seq<bool>): Result<string, DataError> {
    match ParseRp(NEW_RP, frame)
    case Err(_) => Err(Truncated)
    case Ok(v) => ReadDeliver(v.tpdu)
  }

  /** The fields of a written SMS-DELIVER as the reader looks for them. */
  lemma FieldsStand(d: DeliverFields, tpdu: seq<bool>, behind: nat)
    requires DeliverOk(d) && tpdu == DeliverBits(d) && behind + 72 == UserDataAt(d)
    ensures |tpdu| == UserDataAt(d) + 8 + |d.ud.raw| && tpdu[1] == d.ud.udhi
    ensures At(tpdu, 8, TlAddressBits(d.oa)) && behind == 8 + |TlAddressBits(d.oa)|
    ensures At(tpdu, behind, CodeBits(d.pid, d.ud.dcs))
  {
    var a, c := TlAddressBits(d.oa), CodeBits(d.pid, d.ud.dcs);
    TlLength(d.oa);
    DeliverAccounting(d);
    AtSlice(tpdu, 0, tpdu);
    AtSplit(tpdu, 0, HeaderBits(d.ud.udhi) + MiddleBits(d), WireBits(d.ud));
    AtSplit(tpdu, 0, HeaderBits(d.ud.udhi), MiddleBits(d));
    AtSplit(tpdu, 8, a + c, d.scts);
    AtSplit(tpdu, 8, a, c);
    assert SameBit(tpdu, 0, HeaderBits(d.ud.udhi), 1);
  }

  lemma CodingReadsBack(src: seq<bool>, at: nat, pid: nat, dcs: nat)
    requires dcs < 256 && At(src, at, CodeBits(pid, dcs))
    ensures at + 16 <= |src| && Field(src, at + 8, 8) == dcs
  {
    assert Pow2(8) == 256;
    AtSplit(src, at, MsbBits(pid, 8), MsbBits(dcs, 8));
    FieldAt(src, at + 8, dcs, 8);
  }

  /** Read from where they are, the user data give the text exactly when the length octet and the
      alphabet allow it. */
  lemma RightPlace(d: DeliverFields, text: string, tpdu: seq<bool>, behind: nat)
    requires DeliverOk(d) && tpdu == DeliverBits(d) && behind + 72 == UserDataAt(d)
    requires CString(text) && d.ud == Encoded(text)
    ensures ReadBehindAddress(tpdu, behind) == Ok(text) <==> |text| <= 255 && Alphabetic(text)
  {
    HeaderReadsBack(d, tpdu, behind);
    DataReadBack(d, text, tpdu, behind + 72, UdFields(0, false, 0, []));
    ReadsUserData(tpdu, behind, UdFields(0, false, 0, []));
  }

  lemma DataReadBack(d: DeliverFields, text: string, tpdu: seq<bool>, at: nat, was: UdFields)
    requires DeliverOk(d) && tpdu == DeliverBits(d) && at == UserDataAt(d) && was == UdFields(0, false, 0, [])
    requires CString(text) && d.ud == Encoded(text)
    ensures ParseUd(was, tpdu, at).Ok?
    ensures Decode(ParseUd(was, tpdu, at).value) == Ok(text) <==> |text| <= 255 && Alphabetic(text)
  {
    UserDataStand(d);
    WireRoundTrip(text, tpdu, at, was);
  }

  lemma HeaderReadsBack(d: DeliverFields, tpdu: seq<bool>, behind: nat)
    requires DeliverOk(d) && tpdu == DeliverBits(d) && behind + 72 == UserDataAt(d) && d.ud.dcs == 0
    ensures 8 <= behind && behind + 72 <= |tpdu| && Field(tpdu, behind + 8, 8) == 0 && tpdu[1] == d.ud.udhi
  {
    FieldsStand(d, tpdu, behind);
    CodingReadsBack(tpdu, behind, d.pid, d.ud.dcs);
  }

  lemma ReadsUserData(tpdu: seq<bool>, at: nat, was: UdFields)
    requires 8 <= at && at + 72 <= |tpdu| && was == UdFields(Field(tpdu, at + 8, 8), tpdu[1], 0, [])
    requires ParseUd(was, tpdu, at + 72).Ok?
    ensures ReadBehindAddress(tpdu, at) == Decode(ParseUd(was, tpdu, at + 72).value)
  {
  }

  /** Read from an octet further on, too few bits are left for the text. */
  lemma WrongPlace(d: DeliverFields, text: string, tpdu: seq<bool>, behind: nat)
    requires DeliverOk(d) && tpdu == DeliverBits(d) && behind + 72 == UserDataAt(d)
    requires d.ud == Encoded(text)
    ensures ReadBehindAddress(tpdu, behind + 8) != Ok(text)
  {
    FieldsStand(d, tpdu, behind);
    var r := ReadBehindAddress(tpdu, behind + 8);
    if r.Ok? {
      var ud := ParseUd(UdFields(Field(tpdu, behind + 16, 8), false, 0, []), tpdu, behind + 80).value;
      assert r == Decode(ud) && |ud.raw| == |PackedBits(text)| - 8;
      assert 7 * |r.value| <= |ud.raw| < 7 * |text|;
    }
  }

  /** For any address whose type says whether it starts with a plus. */
  lemma WellFormedArrives(d: DeliverFields, text: string)
    requires DeliverOk(d) && TlAddressOk(d.oa) && CString(text) && d.ud == Encoded(text)
    ensures ReadDeliver(DeliverBits(d)) == Ok(text) <==> CountsRight(d.oa.digits) && |text| <= 255 && Alphabetic(text)
  {
    var tpdu, behind := DeliverBits(d), UserDataAt(d) - 72;
    FieldsStand(d, tpdu, behind);
    if CountsRight(d.oa.digits) {
      TlAddressRoundTrip(tpdu, 8, d.oa, behind);
      RightPlace(d, text, tpdu, behind);
    } else {
      TlOverrun(tpdu, 8, d.oa, behind);
      WrongPlace(d, text, tpdu, behind);
    }
  }

  /** The address that is sent for a sender that may hold characters other than digits. */
  lemma SameAddressBits(from: string)
    ensures var a := AddressOf(from);
            var c := a.(digits := Cleaned(a.digits));
            && TlAddressOk(c) && TlAddressBits(c) == TlAddressBits(a)
            && LengthV(c.digits) == LengthV(a.digits) && CountsRight(c.digits) == CountsRight(a.digits)
  {
    var a := AddressOf(from);
    CleanedDialed(a.digits);
    CleanedBits(a.digits);
  }

  /** For any sender: a SMS-DELIVER reads back exactly when the sender has no plus or an odd number of
      characters behind it, and the text has at most 255 characters, all in the alphabet. */
  lemma DeliverReadsBack(d: DeliverFields, from: string, text: string)
    requires DeliverOk(d) && d.oa == AddressOf(from) && CString(text) && d.ud == Encoded(text)
    ensures ReadDeliver(DeliverBits(d)) == Ok(text) <==> CountsRight(d.oa.digits) && |text| <= 255 && Alphabetic(text)
  {
    SameAddressBits(from);
    var clean := d.(oa := d.oa.(digits := Cleaned(d.oa.digits)));
    assert MiddleBits(clean) == MiddleBits(d);
    assert DeliverBits(clean) == DeliverBits(d);
    WellFormedArrives(clean, text);
  }

  /** Nothing that fits one length octet can hold a longer text. */
  lemma ShortTexts(tpdu: seq<bool>)
    requires |tpdu| <= 8 * 255
    ensures ReadDeliver(tpdu).Ok? ==> |ReadDeliver(tpdu).value| <= 255
  {
    var a := ParseTlAddress(tpdu, 8);
    if ReadDeliver(tpdu).Ok? {
      ShortBehindAddress(tpdu, a.value.rp);
    }
  }

  lemma ShortBehindAddress(tpdu: seq<bool>, at: nat)
    requires |tpdu| <= 8 * 255 && ReadBehindAddress(tpdu, at).Ok?
    ensures |ReadBehindAddress(tpdu, at).value| <= 255
  {
    assert Pow2(8) == 256;
    var ud := ParseUd(UdFields(Field(tpdu, at + 8, 8), tpdu[1], 0, []), tpdu, at + 72).value;
    assert ud.length <= 255 && |ud.raw| <= |tpdu|;
    assert ReadBehindAddress(tpdu, at) == Decode(ud);
    DecodedLength(ud);
  }

  lemma DecodedLength(ud: UdFields)
    requires ud.length <= 255 && |ud.raw| <= 8 * 255 && Decode(ud).Ok?
    ensures |Decode(ud).value| <= 255
  {
  }

  /** From the text to the handset: through SMS-DELIVER and RP-DATA a text arrives as it was exactly
      when the sender has no plus or an odd number of characters behind it, and the text has at most
      255 characters, all in the alphabet. */
  lemma TextArrives(reference: nat, smsc: Address, d: DeliverFields, from: string, text: string)
    requires reference < 256 && AddressOk(smsc) && |d.scts| == 56
    requires d.oa == AddressOf(from) && CString(text) && d.ud == Encoded(text)
    ensures ReceivedText(RpBits(RelayOf(reference, smsc, d))) == Ok(text) <==>
            CountsRight(d.oa.digits) && |text| <= 255 && Alphabetic(text)
  {
    var frame := RpBits(RelayOf(reference, smsc, d));
    if |text| <= 255 {
      EncodedFits(d, text);
      RelayCarries(reference, smsc, d);
      DeliverReadsBack(d, from, text);
    } else {
      TpduFits(frame);
      if ParseRp(NEW_RP, frame).Ok? {
        ShortTexts(ParseRp(NEW_RP, frame).value.tpdu);
      }
    }
  }
}
