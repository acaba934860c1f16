/** Who a handset is told a text comes from: the sender and the service center in the frame that
    create_sms_delivery makes (smsc.cpp), read back without looking at how they were put there. */
module Senders {
  import opened Wrappers
  import opened Bits
  import opened BcdDigits
  import opened Layers
  import opened RelayLayer
  import opened UserData
  import opened Deliver
  import opened Handset
  import opened Packing
  import opened WireLaws

  /** The digit that stands for a character in a number. */
  function ShownDigit(c: char): char {
    if '0' <= c <= '9' || c == '*' || c == '#' then c else '0'
  }

  /** A number as a handset shows it: at most 20 characters, a leading plus kept. */
  function Shown(number: string): (r: string)
    ensures |r| <= 20
  {
    var n := if |number| <= 20 then |number| else 20;
    seq(n, i requires 0 <= i < n => if i == 0 && number[0] == '+' then '+' else ShownDigit(number[i]))
  }

  /** A number with a plus is international, type 1, any other one national, type 2; the numbering plan
      is E.164, plan 1. */
  function ShownAddress(number: string): Address {
    Address(if number != "" && number[0] == '+' then 1 else 2, 1, Shown(number))
  }

  /** Whether an odd number of the characters shown follows the plus, if there is one. */
  predicate PlusCounts(number: string) {
    number != "" && number[0] == '+' ==> |Shown(number)| % 2 == 0
  }

  lemma ShownIs(number: string)
    ensures var a := AddressOf(number);
            && a.(digits := Cleaned(a.digits)) == ShownAddress(number)
            && (CountsRight(a.digits) <==> PlusCounts(number))
  {
    var a := AddressOf(number);
    forall i | 0 <= i < |a.digits|
      ensures Cleaned(a.digits)[i] == Shown(number)[i]
    {
      DigitSent(number[i]);
    }
    assert Cleaned(a.digits) == Shown(number);
  }

  lemma DigitSent(c: char)
    ensures Sent(c) == ShownDigit(c)
  {
  }

  /** A number in digits, of at most 20 characters, is shown as it is. */
  lemma ShownAsItIs(number: string)
    requires |number| <= 20
    requires forall i :: 0 <= i < |number| ==> '0' <= number[i] <= '9' || (i == 0 && number[i] == '+')
    ensures Shown(number) == number
  {
  }

  /** Octets of the address behind its first two. */
  function ShownOctets(number: string): nat {
    (|Shown(number)| - (if number != "" && number[0] == '+' then 1 else 0) + 1) / 2
  }

  lemma ShownLength(number: string)
    ensures LengthV(Shown(number)) == LengthV(AddressOf(number).digits) == ShownOctets(number)
    ensures HasPlus(Shown(number)) == (number != "" && number[0] == '+')
  {
    ShownIs(number);
    CleanedDialed(AddressOf(number).digits);
  }

  lemma ReadsBackAs(d: DeliverFields, a: Address, tpdu: seq<bool>, behind: nat, plusCounts: bool)
    requires DeliverOk(d) && tpdu == DeliverBits(d) && behind + 72 == UserDataAt(d)
    requires TlAddressOk(a) && TlAddressBits(a) == TlAddressBits(d.oa) && plusCounts == CountsRight(a.digits)
    ensures ParseTlAddress(tpdu, 8) == Ok(Parsed(a, behind)) <==> plusCounts
  {
    FieldsStand(d, tpdu, behind);
    TlAddressRoundTrip(tpdu, 8, a, behind);
  }

  /** In a SMS-DELIVER the sender stands behind the first octet, and is read back exactly when its
      plus counts. */
  lemma SenderReadsBack(d: DeliverFields, from: string)
    requires DeliverOk(d) && d.oa == AddressOf(from)
    ensures ParseTlAddress(DeliverBits(d), 8) == Ok(Parsed(ShownAddress(from), 24 + 8 * ShownOctets(from)))
            <==> PlusCounts(from)
  {
    ShownIs(from);
    ShownLength(from);
    SameAddressBits(from);
    ReadsBackAs(d, ShownAddress(from), DeliverBits(d), 24 + 8 * ShownOctets(from), PlusCounts(from));
  }

  // ---- In the frame that is sent ----

  /** The service center that a relay layer message tells: none when no character is left behind a
      plus, since an element of length zero is not read. */
  function ShownCenter(smsc: string): Address {
    if smsc == "" || smsc == "+" then Address(0, 0, "") else ShownAddress(smsc)
  }

  lemma SameType(a: Address, c: Address)
    requires c.ton == a.ton && c.plan == a.plan
    ensures TypeBits(a) == TypeBits(c)
  {
  }

  lemma LvSame(x: Element, y: Element, length: nat, value: seq<bool>)
    requires ValueLength(x) == length && ValueLength(y) == length && ValueBits(x) == value && ValueBits(y) == value
    ensures LvBits(x) == LvBits(y)
  {
  }

  lemma SameValue(x: Element, y: Element, t: seq<bool>, n: seq<bool>)
    requires x.Number? && y.Number? && LengthV(x.address.digits) == LengthV(y.address.digits)
    requires TypeBits(x.address) == t && TypeBits(y.address) == t
    requires DigitBits(x.address.digits) == n && DigitBits(y.address.digits) == n
    ensures LvBits(x) == LvBits(y)
  {
    LvSame(x, y, ValueLength(x), t + n);
  }

  lemma NoElement(a: Address)
    requires LengthV(a.digits) == 0
    ensures LvBits(Number(a)) == LvBits(Number(Address(0, 0, "")))
  {
  }

  lemma ShownIsOk(number: string)
    requires number != "" && number != "+"
    ensures AddressOk(ShownAddress(number))
  {
    ShownIs(number);
    ShownLength(number);
    SameAddressBits(number);
  }

  lemma CenterSent(smsc: string)
    ensures AddressOk(ShownCenter(smsc)) && LvBits(Number(AddressOf(smsc))) == LvBits(Number(ShownCenter(smsc)))
  {
    if smsc == "" || smsc == "+" {
      NoElement(AddressOf(smsc));
    } else {
      ShownIs(smsc);
      ShownIsOk(smsc);
      CleanedBits(AddressOf(smsc).digits);
      SameType(AddressOf(smsc), ShownAddress(smsc));
      SameValue(Number(AddressOf(smsc)), Number(ShownAddress(smsc)), TypeBits(AddressOf(smsc)),
                DigitBits(AddressOf(smsc).digits));
    }
  }

  lemma SameFrame(reference: nat, smsc: string, d: DeliverFields)
    ensures RpBits(RelayOf(reference, AddressOf(smsc), d)) == RpBits(RelayOf(reference, ShownCenter(smsc), d))
  {
    CenterSent(smsc);
  }

  /** The user data of a repacked message: the encoded text, or those of the SMS-SUBMIT it replaces. */
  function NewData(m: Sms): UdFields {
    if RouteOf(m) == ToTpdu || !m.tl.Submit? then Encoded(GetText(m)) else m.tl.ud
  }

  lemma DataFits(m: Sms, inp: Inputs)
    requires |inp.scts| == 56 && WholeOctets(NewData(m).raw) && |NewData(m).raw| <= 8 * 232
    ensures var d := NewDeliver(m, GetText(m), NewData(m), inp);
            DeliverOk(d) && DeliverLength(d) < 256
  {
    assert |AddressOf(inp.from).digits| <= 20;
  }

  lemma NewFrame(m: Sms, inp: Inputs)
    requires m.needRepack && (RouteOf(m) == ToTpdu || RouteOf(m) == ToDelivery)
    ensures Pack(m, inp).1.rp
            == Some(RelayOf(inp.reference, AddressOf(inp.smsc), NewDeliver(m, GetText(m), NewData(m), inp)))
  {
  }

  /** What a SMS-DELIVER tells beside its text: exactly when its plus counts, the sender, and the time
      stamp behind it. */
  ghost predicate TellsSender(tpdu: seq<bool>, inp: Inputs) {
    var behind := 24 + 8 * ShownOctets(inp.from);
    && (ParseTlAddress(tpdu, 8) == Ok(Parsed(ShownAddress(inp.from), behind)) <==> PlusCounts(inp.from))
    && |tpdu| >= behind + 72 && tpdu[behind + 16..behind + 72] == inp.scts
  }

  lemma DeliverTells(d: DeliverFields, inp: Inputs)
    requires DeliverOk(d) && d.oa == AddressOf(inp.from) && d.scts == inp.scts
    ensures TellsSender(DeliverBits(d), inp)
  {
    SenderReadsBack(d, inp.from);
    ShownLength(inp.from);
    DeliverAccounting(d);
    StampStands(d);
  }

  /** And the relay layer around it: the reference, the service center and no destination. */
  ghost predicate Tells(frame: seq<bool>, inp: Inputs) {
    var r := ParseRp(NEW_RP, frame);
    && r.Ok? && r.value.reference == inp.reference
    && r.value.originator == ShownCenter(inp.smsc) && r.value.destination == Address(0, 0, "")
    && TellsSender(r.value.tpdu, inp)
  }

  lemma FrameTells(d: DeliverFields, inp: Inputs)
    requires inp.reference < 256
    requires DeliverOk(d) && DeliverLength(d) < 256 && d.oa == AddressOf(inp.from) && d.scts == inp.scts
    ensures Tells(RpBits(RelayOf(inp.reference, AddressOf(inp.smsc), d)), inp)
  {
    CenterSent(inp.smsc);
    SameFrame(inp.reference, inp.smsc, d);
    RelayCarries(inp.reference, ShownCenter(inp.smsc), d);
    DeliverTells(d, inp);
  }

  /** Whatever route makes a new SMS-DELIVER, the frame that is sent gives the handset the service
      center of the configuration and, exactly when its plus counts, the sender of the message: in
      full up to 20 characters, its first 20 characters otherwise. */
  lemma SenderArrives(m: Sms, inp: Inputs)
    requires m.needRepack && (RouteOf(m) == ToTpdu || RouteOf(m) == ToDelivery)
    requires inp.reference < 256 && |inp.scts| == 56
    requires WholeOctets(NewData(m).raw) && |NewData(m).raw| <= 8 * 232
    ensures var rp := Pack(m, inp).1.rp;
            rp.Some? && Tells(RpBits(rp.value), inp)
  {
    DataFits(m, inp);
    NewFrame(m, inp);
    FrameTells(NewDeliver(m, GetText(m), NewData(m), inp), inp);
  }

  /** All the way down: after a conversion to a SMS-DELIVER, the frame that the message is sent with
      gives a handset the text that the message had before, exactly when the sender has no plus or an
      odd number of characters behind it and the text has at most 255 characters, all in the alphabet. */
  lemma ConvertedTextArrives(m: Sms, inp: Inputs)
    requires MessageOk(m) && m.needRepack && RouteOf(m) == ToTpdu
    requires inp.reference < 256 && |inp.scts| == 56
    ensures var sent, text := Pack(m, inp).1, GetText(m);
            && sent.rp.Some?
            && (ReceivedText(RpBits(sent.rp.value)) == Ok(text) <==>
                  PlusCounts(inp.from) && |text| <= 255 && Alphabetic(text))
  {
    var text := GetText(m);
    var d := NewDeliver(m, text, Encoded(text), inp);
    TextIsCString(m);
    ShownIs(inp.from);
    CenterSent(inp.smsc);
    SameFrame(inp.reference, inp.smsc, d);
    NewFrame(m, inp);
    TextArrives(inp.reference, ShownCenter(inp.smsc), d, inp.from, text);
  }

  /** A text of at most 255 characters always fits. */
  lemma ShortTextFits(m: Sms)
    requires RouteOf(m) == ToTpdu && |GetText(m)| <= 255
    ensures WholeOctets(NewData(m).raw) && |NewData(m).raw| <= 8 * 232
  {
    EncodedIsWhole(GetText(m));
  }
}
