/** Repacking a message for delivery (smsc.cpp): text into a SIP body or into a SMS-DELIVER, or a
    SMS-SUBMIT turned into a SMS-DELIVER. */
module Packing {
  import Bits
  import Characters
  import opened Wrappers
  import opened Layers
  import opened RelayLayer
  import opened GsmAlphabet
  import opened UserData
  import opened Deliver
  import opened Streams

  datatype ContentType = TextPlain | Sms3gpp | UnsupportedContent

  datatype TpduKind = NoTpdu | Submit(ud: UdFields, pi: nat) | Delivery(deliver: DeliverFields)

  /** The parts of a parsed message that repacking looks at: its content type when it was parsed,
      the one in its header now, the one to convert to, its body, its decoded layers and its flags. */
  datatype Sms = Sms(contentType: ContentType, wireType: ContentType, convertTo: ContentType,
                     body: Option<string>, tl: TpduKind, rp: Option<RpFields>, msToSc: bool, needRepack: bool)

  /** What comes from elsewhere: sender, service center, reference, time stamp, the hex or base64 form
      of a frame, and the octet that is found when a SMS-DELIVER is taken for a SMS-SUBMIT. */
  datatype Inputs = Inputs(from: string, smsc: string, reference: nat, scts: seq<bool>,
                           armour: seq<bool> -> string, foundPi: nat)

  /** Until it has been repacked, a message has the content type that its header says. */
  ghost predicate MessageOk(m: Sms) {
    && (m.needRepack ==> m.wireType == m.contentType)
    && (m.body.Some? ==> CString(m.body.value))
  }

  function DecodedOrEmpty(ud: UdFields): string {
    match Decode(ud)
    case Ok(text) => text
    case Err(_) => ""
  }

  /** get_text, for a message of the given type. */
  function TextOf(kind: ContentType, m: Sms): string {
    match kind
    case TextPlain => if m.body.Some? then m.body.value else ""
    case Sms3gpp =>
      if m.msToSc then (if m.tl.Submit? then DecodedOrEmpty(m.tl.ud) else "")
      else if m.tl.Delivery? then DecodedOrEmpty(m.tl.deliver.ud)
      else ""
    case UnsupportedContent => ""
  }

  function GetText(m: Sms): string {
    TextOf(m.contentType, m)
  }

  /** The text that the message carries to whoever reads its header. */
  function CarriedText(m: Sms): string {
    TextOf(m.wireType, m)
  }

  /** What get_text reads: the body of a plain text, and the text that a SMS-SUBMIT from a handset or a
      SMS-DELIVER to one was made of, if it is in the alphabet. */
  lemma TextRead(m: Sms, text: string, pi: nat, d: DeliverFields)
    requires CString(text) && Alphabetic(text) && d.ud == Encoded(text)
    ensures m.contentType == TextPlain && m.body == Some(text) ==> GetText(m) == text
    ensures m.contentType == Sms3gpp && m.msToSc && m.tl == Submit(Encoded(text), pi) ==> GetText(m) == text
    ensures m.contentType == Sms3gpp && !m.msToSc && m.tl == Delivery(d) ==> GetText(m) == text
  {
    EncodeDecode(text);
  }

  /** What it does not read: no body, another type, the other direction, or user data that cannot be
      decoded give no text. */
  lemma NothingRead(m: Sms)
    requires || m.contentType == UnsupportedContent
             || (m.contentType == TextPlain && m.body.None?)
             || (m.contentType == Sms3gpp && m.msToSc && !(m.tl.Submit? && Decode(m.tl.ud).Ok?))
             || (m.contentType == Sms3gpp && !m.msToSc && !(m.tl.Delivery? && Decode(m.tl.deliver.ud).Ok?))
    ensures GetText(m) == ""
  {
  }

  // ---- The packing functions ----

  /** pack_plain_text */
  function WithPlainText(m: Sms, text: string): Sms {
    m.(body := if m.body.Some? then Some(text) else None, msToSc := false, wireType := TextPlain)
  }

  const SHORT_TYPE_0: nat := 0x40
  const PID_MARK: string := "#!TLPID"

  /** The protocol identifier that a text asks for: a number behind the mark, as sscanf reads it into
      an unsigned. */
  function AskedPid(text: string): Option<nat> {
    if |text| < |PID_MARK| || text[..|PID_MARK|] != PID_MARK then None
    else
      var t := SkipBlanks(text[|PID_MARK|..]);
      var signed := t != "" && (t[0] == '-' || t[0] == '+');
      var u := if signed then t[1..] else t;
      var n := DigitRun(u);
      if n == 0 then None
      else
        var v := Value(u[..n]) % TWO_32;
        Some(if signed && t[0] == '-' then (TWO_32 - v) % TWO_32 else v)
  }

  /** The protocol identifier of a new SMS-DELIVER: what the text asks for, else a type 0 short message
      stays one, else none. */
  function ChosenPid(tl: TpduKind, text: string, inp: Inputs): nat {
    match AskedPid(text)
    case Some(pid) => pid
    case None =>
      var pi := match tl case NoTpdu => 0 case Submit(_, pi) => pi case Delivery(_) => inp.foundPi;
      if pi == SHORT_TYPE_0 then pi else 0
  }

  function NewDeliver(m: Sms, text: string, ud: UdFields, inp: Inputs): DeliverFields {
    DeliverFields(AddressOf(inp.from), ChosenPid(m.tl, text, inp), inp.scts, ud)
  }

  function NewRelay(m: Sms, text: string, ud: UdFields, inp: Inputs): RpFields {
    RelayOf(inp.reference, AddressOf(inp.smsc), NewDeliver(m, text, ud, inp))
  }

  /** create_sms_delivery with pack_tpdu */
  function WithDelivery(m: Sms, text: string, ud: UdFields, inp: Inputs): Sms {
    var rp := NewRelay(m, text, ud, inp);
    m.(tl := Delivery(NewDeliver(m, text, ud, inp)), rp := Some(rp), msToSc := false,
       body := if m.body.Some? then Some(inp.armour(RpBits(rp))) else None)
  }

  datatype Route = ToPlain | ToTpdu | ToDelivery | AsItIs | Refused

  /** The branch that pack_sms_for_delivery takes. */
  function RouteOf(m: Sms): Route {
    match m.convertTo
    case TextPlain => ToPlain
    case Sms3gpp => ToTpdu
    case UnsupportedContent =>
      match m.contentType
      case TextPlain => ToPlain
      case Sms3gpp => if !m.msToSc then AsItIs else if m.tl.Submit? then ToDelivery else Refused
      case UnsupportedContent => Refused
  }

  /** The repacked message of each route, or a refusal. */
  function Repacked(m: Sms, inp: Inputs): (bool, Sms) {
    var text := GetText(m);
    match RouteOf(m)
    case ToPlain => (true, WithPlainText(m, text))
    case ToTpdu => (true, WithDelivery(m, text, Encoded(text), inp).(wireType := Sms3gpp))
    case ToDelivery => (true, if m.tl.Submit? then WithDelivery(m, text, m.tl.ud, inp) else m)
    case AsItIs => (true, m)
    case Refused => (false, m)
  }

  /** pack_sms_for_delivery */
  function Pack(m: Sms, inp: Inputs): (bool, Sms) {
    if !m.needRepack then (true, m)
    else
      var (ok, r) := Repacked(m, inp);
      (ok, if ok then r.(needRepack := false) else r)
  }

  // ---- Meaning ----

  /** What a route needs for the text to survive it. */
  ghost predicate RouteKeepsText(m: Sms) {
    match RouteOf(m)
    case ToPlain => m.body.Some? || GetText(m) == ""
    case ToTpdu => Alphabetic(GetText(m))
    case ToDelivery => true
    case AsItIs => true
    case Refused => true
  }

  lemma {:induction false} NoNulDecoded(raw: seq<bool>, crp: nat, n: nat)
    requires crp + 7 * n <= |raw|
    ensures CString(DecodedText(raw, crp, n))
  {
    if n > 0 {
      NoNulDecoded(raw, crp, n - 1);
      EntryIsNotNul(SeptetAt(raw, crp + 7 * (n - 1)));
    }
  }

  lemma EntryIsNotNul(sms: nat)
    requires sms < 128
    ensures Entry(sms) != 0
  {
  }

  lemma DecodedIsCString(ud: UdFields)
    ensures CString(DecodedOrEmpty(ud))
  {
    if Decode(ud).Ok? {
      if ud.udhi {
        var header := HeaderSeptets(ud.raw);
        NoNulDecoded(ud.raw, 7 * header, TextSeptets(ud.length, header));
      } else {
        NoNulDecoded(ud.raw, 0, ud.length);
      }
    }
  }

  lemma TextIsCString(m: Sms)
    requires MessageOk(m)
    ensures CString(GetText(m))
  {
    if m.tl.Submit? {
      DecodedIsCString(m.tl.ud);
    } else if m.tl.Delivery? {
      DecodedIsCString(m.tl.deliver.ud);
    }
  }

  lemma PlainCarries(m: Sms, text: string)
    ensures CarriedText(WithPlainText(m, text)) == text <==> m.body.Some? || text == ""
  {
  }

  /** A message with a new SMS-DELIVER carries what its user data decode to. */
  lemma DeliveryCarries(m: Sms, text: string, ud: UdFields, inp: Inputs)
    ensures CarriedText(WithDelivery(m, text, ud, inp).(wireType := Sms3gpp, needRepack := false)) == DecodedOrEmpty(ud)
  {
  }

  lemma EncodedCarries(text: string)
    requires CString(text)
    ensures DecodedOrEmpty(Encoded(text)) == text <==> Alphabetic(text)
  {
    EncodeDecode(text);
  }

  /** Repacking keeps the meaning: the text that a message carries after a successful call is the
      one it carried before exactly when its route can hold it, which for plain text means a body
      to put it in, and for a new SMS-DELIVER a text in the alphabet. */
  lemma PackKeepsText(m: Sms, inp: Inputs)
    requires MessageOk(m) && m.needRepack && Pack(m, inp).0
    ensures CarriedText(Pack(m, inp).1) == CarriedText(m) <==> RouteKeepsText(m)
  {
    var text := GetText(m);
    assert CarriedText(m) == text;
    match RouteOf(m)
    case ToPlain => PlainCarries(m, text);
    case ToTpdu =>
      TextIsCString(m);
      EncodedCarries(text);
      DeliveryCarries(m, text, Encoded(text), inp);
    case ToDelivery =>
      DeliveryCarries(m, text, m.tl.ud, inp);
      assert Pack(m, inp).1 == WithDelivery(m, text, m.tl.ud, inp).(wireType := Sms3gpp, needRepack := false);
    case AsItIs =>
  }

  /** Without a request to convert, every successful call keeps the text. */
  lemma PlainRepackKeepsText(m: Sms, inp: Inputs)
    requires MessageOk(m) && m.needRepack && Pack(m, inp).0 && m.convertTo == UnsupportedContent
    ensures CarriedText(Pack(m, inp).1) == CarriedText(m)
  {
    PackKeepsText(m, inp);
  }

  /** Exactly when repacking is refused; the message is left as it was. */
  lemma RefusedExactly(m: Sms, inp: Inputs)
    ensures !Pack(m, inp).0 <==>
            && m.needRepack && m.convertTo == UnsupportedContent
            && (m.contentType == UnsupportedContent || (m.contentType == Sms3gpp && m.msToSc && !m.tl.Submit?))
    ensures !Pack(m, inp).0 ==> Pack(m, inp).1 == m
  {
  }

  /** A successful call leaves the content type that was asked for, by the request to convert or else
      by the message itself, and a message that goes down to a handset. */
  lemma PackedAs(m: Sms, inp: Inputs)
    requires MessageOk(m) && m.needRepack && Pack(m, inp).0
    ensures var r := Pack(m, inp).1;
            && r.wireType == (if m.convertTo == UnsupportedContent then m.contentType else m.convertTo)
            && !r.msToSc && r.contentType == m.contentType && r.convertTo == m.convertTo
            && (r.body.Some? <==> m.body.Some?)
  {
  }

  /** A new relay layer message is also what the body holds, in its armour. */
  lemma BodyIsFrame(m: Sms, inp: Inputs)
    requires m.needRepack && (RouteOf(m) == ToTpdu || RouteOf(m) == ToDelivery) && m.body.Some?
    ensures var r := Pack(m, inp).1;
            r.rp.Some? && r.body == Some(inp.armour(RpBits(r.rp.value)))
  {
  }

  /** The calls of one delivery attempt after another. */
  function PackAll(m: Sms, inputs: seq<Inputs>): (bool, Sms)
    decreases |inputs|
  {
    if inputs == [] then (true, m)
    else
      var r := Pack(m, inputs[0]);
      if r.0 then PackAll(r.1, inputs[1..]) else r
  }

  /** After one success every later call leaves the message alone, and it stays meaningful. */
  lemma {:induction false} LaterCallsDoNothing(m: Sms, inputs: seq<Inputs>)
    requires MessageOk(m) && inputs != [] && Pack(m, inputs[0]).0
    ensures PackAll(m, inputs) == Pack(m, inputs[0])
    ensures !PackAll(m, inputs).1.needRepack
    decreases |inputs|
  {
    var r := Pack(m, inputs[0]);
    if |inputs| > 1 {
      RepackedStays(r.1, inputs[1..]);
    }
  }

  lemma {:induction false} RepackedStays(m: Sms, inputs: seq<Inputs>)
    requires !m.needRepack
    ensures PackAll(m, inputs) == (true, m)
    decreases |inputs|
  {
    if inputs != [] {
      RepackedStays(m, inputs[1..]);
    }
  }

  /** A text that starts with the mark and a number is sent with that protocol identifier, modulo 256;
      without the mark only a type 0 short message keeps its own. */
  lemma PidSent(m: Sms, n: nat, rest: string, ud: UdFields, inp: Inputs)
    requires rest != "" && !Characters.IsDigit(rest[0])
    ensures var text := PID_MARK + (Digits(n) + rest);
            NewDeliver(m, text, ud, inp).pid == n % TWO_32
            && Bits.MsbBits(NewDeliver(m, text, ud, inp).pid, 8) == Bits.MsbBits(n % 256, 8)
  {
    var u := Digits(n) + rest;
    var text := PID_MARK + u;
    assert text[..|PID_MARK|] == PID_MARK && text[|PID_MARK|..] == u;
    assert SkipBlanks(u) == u;
    RunStops(Digits(n), rest);
    assert u[..|Digits(n)|] == Digits(n);
    LengthOctet(n % TWO_32);
    SameLowOctet(n);
  }

  /** A number with a minus sign wraps around in 32 bits. */
  lemma PidNegative(m: Sms, n: nat, rest: string, ud: UdFields, inp: Inputs)
    requires 0 < n < TWO_32 && rest != "" && !Characters.IsDigit(rest[0])
    ensures NewDeliver(m, PID_MARK + ("-" + (Digits(n) + rest)), ud, inp).pid == 0x1_0000_0000 - n
  {
    var digits := Digits(n);
    var u := digits + rest;
    var t := "-" + u;
    var text := PID_MARK + t;
    RunStops(digits, rest);
    assert text[..|PID_MARK|] == PID_MARK && text[|PID_MARK|..] == t && t[1..] == u && u[..|digits|] == digits;
    PidReadNegative(text, t, u, |digits|, n);
  }

  lemma PidReadNegative(text: string, t: string, u: string, n: nat, v: nat)
    requires |text| >= |PID_MARK| && text[..|PID_MARK|] == PID_MARK && t == text[|PID_MARK|..]
    requires t != "" && t[0] == '-' && u == t[1..] && n == DigitRun(u) && 0 < n && v == Value(u[..n]) && 0 < v < TWO_32
    ensures AskedPid(text) == Some(TWO_32 - v)
  {
  }

  /** Any other text leaves a type 0 short message (section 9.2.3.9 of GSM 03.40) one, whether it is
      sent by a handset or, taken for one, has 64 in that place, and every other message gets 0. */
  lemma PidKept(m: Sms, text: string, ud: UdFields, inp: Inputs)
    requires || |text| < 7 || text[..7] != "#!TLPID"
             || |text| == 7 || !(IsBlank(text[7]) || Characters.IsDigit(text[7]) || text[7] == '-' || text[7] == '+')
    ensures NewDeliver(m, text, ud, inp).pid
            == if (m.tl.Submit? && m.tl.pi == 64) || (m.tl.Delivery? && inp.foundPi == 64) then 64 else 0
  {
    assert |text| > 7 ==> text[7..][0] == text[7];
  }

  lemma SameLowOctet(n: nat)
    ensures n % TWO_32 % 256 == n % 256
  {
    assert n == TWO_32 * (n / TWO_32) + n % TWO_32;
  }

  // ---- The class ----

  method FrameOf(v: RpFields) returns (frame: seq<bool>)
    requires WholeOctets(v.tpdu)
    ensures frame == RpBits(v)
  {
    var data := new RPData();
    data.reference, data.originator, data.destination, data.tpdu := v.reference, v.originator, v.destination, v.tpdu;
    assert data.Fields() == v;
    var bits := data.Write();
    frame := bits[..];
  }

  class ShortMsg {
    var contentType: ContentType
    var wireType: ContentType
    var convertTo: ContentType
    var body: Option<string>
    var tl: TpduKind
    var rp: Option<RpFields>
    var msToSc: bool
    var needRepack: bool

    ghost function Contents(): Sms
      reads this
    {
      Sms(contentType, wireType, convertTo, body, tl, rp, msToSc, needRepack)
    }

    constructor (m: Sms)
      ensures Contents() == m
    {
      contentType, wireType, convertTo := m.contentType, m.wireType, m.convertTo;
      body, tl, rp, msToSc, needRepack := m.body, m.tl, m.rp, m.msToSc, m.needRepack;
    }

    /** get_text */
    method GetMessageText() returns (text: string)
      ensures text == GetText(Contents())
    {
      match contentType {
        case TextPlain =>
          text := if body.Some? then body.value else "";
        case Sms3gpp =>
          text := "";
          if msToSc {
            if tl.Submit? {
              text := DecodedOrEmpty(tl.ud);
            }
          } else if tl.Delivery? {
            text := DecodedOrEmpty(tl.deliver.ud);
          }
        case UnsupportedContent =>
          text := "";
      }
    }

    /** pack_tpdu */
    method PackTpdu(inp: Inputs)
      requires rp.Some? && WholeOctets(rp.value.tpdu)
      modifies this`body
      ensures body == if old(body).Some? then Some(inp.armour(RpBits(rp.value))) else None
    {
      var frame := FrameOf(rp.value);
      if body.Some? {
        body := Some(inp.armour(frame));
      }
    }

    /** The protocol identifier of the message that is replaced, kept if it is a type 0 short message. */
    method PidOf(inp: Inputs) returns (pid: nat)
      ensures forall text: string :: AskedPid(text).None? ==> pid == ChosenPid(tl, text, inp)
    {
      pid := 0;
      match tl {
        case NoTpdu =>
        case Submit(_, pi) => pid := pi;
        case Delivery(_) => pid := inp.foundPi;
      }
      if pid != SHORT_TYPE_0 {
        pid := 0;
      }
    }

    /** create_sms_delivery */
    method CreateSmsDelivery(text: string, ud: UdFields, inp: Inputs)
      requires WholeOctets(ud.raw) && |inp.scts| == 56
      modifies this
      ensures Contents() == WithDelivery(old(Contents()), text, ud, inp)
    {
      var pid := PidOf(inp);
      var asked := AskedPid(text);
      if asked.Some? {
        pid := asked.value;
      }
      var d := DeliverFields(AddressOf(inp.from), pid, inp.scts, ud);
      var frame := WriteDeliver(d);
      rp := Some(RpFields(inp.reference, AddressOf(inp.smsc), NO_ADDRESS, frame[..]));
      tl := Delivery(d);
      OctetsAreWhole(frame[..], DeliverLength(d));
      PackTpdu(inp);
      msToSc := false;
    }

    /** pack_text_to_tpdu */
    method PackTextToTpdu(text: string, inp: Inputs) returns (ok: bool)
      requires CString(text) && |inp.scts| == 56
      modifies this
      ensures ok && Contents() == WithDelivery(old(Contents()), text, Encoded(text), inp).(wireType := Sms3gpp)
    {
      var data := new TLUserData(0, false);
      data.Encode7bit(text);
      EncodedIsWhole(text);
      CreateSmsDelivery(text, UdFields(data.dcs, data.udhi, data.length, data.rawData[..]), inp);
      wireType := Sms3gpp;
      ok := true;
    }

    /** pack_plain_text */
    method PackPlainText(text: string) returns (ok: bool)
      modifies this
      ensures ok && Contents() == WithPlainText(old(Contents()), text)
    {
      if body.Some? {
        body := Some(text);
      }
      msToSc := false;
      wireType := TextPlain;
      ok := true;
    }

    /** recode_tpdu */
    method RecodeTpdu(text: string, inp: Inputs) returns (ok: bool)
      requires (tl.Submit? ==> WholeOctets(tl.ud.raw)) && |inp.scts| == 56
      modifies this
      ensures ok <==> old(tl).Submit?
      ensures Contents() == if old(tl).Submit? then WithDelivery(old(Contents()), text, old(tl).ud, inp)
                             else old(Contents())
    {
      match tl {
        case NoTpdu => return false;
        case Submit(ud, _) =>
          CreateSmsDelivery(text, ud, inp);
          return true;
        case Delivery(_) => return false;
      }
    }

    /** The switch over the content type to convert to. */
    method Convert(text: string, inp: Inputs) returns (ok: bool)
      requires convertTo != UnsupportedContent && text == GetText(Contents()) && CString(text) && |inp.scts| == 56
      modifies this
      ensures (ok, Contents()) == Repacked(old(Contents()), inp)
    {
      match convertTo {
        case TextPlain => ok := PackPlainText(text);
        case Sms3gpp => ok := PackTextToTpdu(text, inp);
      }
    }

    /** The switch over the content type the message has. */
    method Keep(text: string, inp: Inputs) returns (ok: bool)
      requires convertTo == UnsupportedContent && text == GetText(Contents()) && |inp.scts| == 56
      requires tl.Submit? ==> WholeOctets(tl.ud.raw)
      modifies this
      ensures (ok, Contents()) == Repacked(old(Contents()), inp)
    {
      ok := true;
      match contentType {
        case TextPlain => ok := PackPlainText(text);
        case Sms3gpp =>
          if msToSc {
            ok := RecodeTpdu(text, inp);
          }
        case UnsupportedContent => return false;
      }
    }

    /** pack_sms_for_delivery, on a message that has been parsed */
    method PackForDelivery(inp: Inputs) returns (ok: bool)
      requires MessageOk(Contents()) && (tl.Submit? ==> WholeOctets(tl.ud.raw)) && |inp.scts| == 56
      modifies this
      ensures (ok, Contents()) == Pack(old(Contents()), inp)
    {
      if !needRepack {
        return true;
      }
      var text := GetMessageText();
      TextIsCString(Contents());
      if convertTo != UnsupportedContent {
        ok := Convert(text, inp);
      } else {
        ok := Keep(text, inp);
      }
      if ok {
        needRepack := false;
      }
    }
  }

  lemma EncodedIsWhole(text: string)
    ensures WholeOctets(PackedBits(text))
  {
    OctetsAreWhole(PackedBits(text), PackedOctets(|text|));
  }
}
