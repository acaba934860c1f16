/** The octets of the layers as a handset's protocol stack expects them (sections 7.2, 7.3 and 8.1 of
    GSM 04.11, section 9.2 of GSM 03.40), as numbers. */
module WireLaws {
  import opened Wrappers
  import opened Bits
  import opened BcdDigits
  import opened Layers
  import opened RelayLayer
  import opened UserData
  import opened Deliver
  import opened Handset
  import opened Packing

  /** Bits at the front of a frame are read at its front. */
  lemma InFront(front: seq<bool>, rest: seq<bool>)
    ensures At(front + rest, 0, front)
  {
    AtSlice(front + rest, 0, front + rest);
    AtSplit(front + rest, 0, front, rest);
  }

  /** Two neighbouring fields read as one. */
  lemma {:induction false} FieldsJoin(src: seq<bool>, rp: nat, n: nat, m: nat)
    requires rp + n + m <= |src|
    ensures Field(src, rp, n + m) == Field(src, rp, n) * Pow2(m) + Field(src, rp + n, m)
  {
    if m > 0 {
      var f, p := Field(src, rp, n), Pow2(m - 1);
      FieldsJoin(src, rp, n, m - 1);
      LastBit(src, rp, n + m);
      LastBit(src, rp + n, m);
      OneMoreBit(f, p, Field(src, rp + n, m - 1), Field(src, rp, n + m - 1), Bit(src[rp + n + m - 1]));
    }
  }

  lemma LastBit(src: seq<bool>, rp: nat, n: nat)
    requires 0 < n && rp + n <= |src|
    ensures Field(src, rp, n) == 2 * Field(src, rp, n - 1) + Bit(src[rp + n - 1])
  {
  }

  lemma OneMoreBit(f: nat, p: nat, low: nat, both: nat, bit: nat)
    requires both == f * p + low
    ensures 2 * both + bit == f * (2 * p) + (2 * low + bit)
  {
  }

  /** SMS-DELIVER starts with message type 0, "no more messages", and the user data header indicator:
      4, or 68 with a header. */
  lemma DeliverStarts(d: DeliverFields)
    requires DeliverOk(d)
    ensures |DeliverBits(d)| >= 8 && Field(DeliverBits(d), 0, 8) == if d.ud.udhi then 68 else 4
  {
    var src := DeliverBits(d);
    assert src[..8] == HeaderBits(d.ud.udhi);
    assert forall k :: 0 <= k < 8 ==> src[k] == src[..8][k];
    assert Field(src, 0, 2) == Bit(d.ud.udhi);
    assert Field(src, 0, 4) == 4 * Bit(d.ud.udhi);
    assert Field(src, 0, 6) == 16 * Bit(d.ud.udhi) + 1;
    assert Field(src, 0, 8) == 64 * Bit(d.ud.udhi) + 4;
  }

  lemma RelayHeaderStands(v: RpFields, src: seq<bool>)
    requires src == RpBits(v)
    ensures At(src, 0, MsbBits(0, 5)) && At(src, 5, MsbBits(1, 3)) && At(src, 8, MsbBits(v.reference, 8))
  {
    InFront(RpHeader(v.reference), RpBody(v));
    AtSplit(src, 0, MsbBits(0, 5) + MsbBits(1, 3), MsbBits(v.reference, 8));
    AtSplit(src, 0, MsbBits(0, 5), MsbBits(1, 3));
  }

  /** RP-DATA towards the handset starts with message type 1 and the reference. */
  lemma RelayStarts(v: RpFields)
    requires v.reference < 256
    ensures |RpBits(v)| >= 16 && Field(RpBits(v), 0, 8) == 1 && Field(RpBits(v), 8, 8) == v.reference
  {
    var src := RpBits(v);
    RelayHeaderStands(v, src);
    HeaderOctets(src, v.reference);
  }

  lemma HeaderOctets(src: seq<bool>, reference: nat)
    requires reference < 256
    requires At(src, 0, MsbBits(0, 5)) && At(src, 5, MsbBits(1, 3)) && At(src, 8, MsbBits(reference, 8))
    ensures Field(src, 0, 8) == 1 && Field(src, 8, 8) == reference
  {
    assert Pow2(3) == 8 && Pow2(5) == 32 && Pow2(8) == 256;
    FieldAt(src, 0, 0, 5);
    FieldAt(src, 5, 1, 3);
    FieldsJoin(src, 0, 5, 3);
    FieldAt(src, 8, reference, 8);
  }

  /** CP-DATA starts with the transaction, protocol discriminator 9 and message type 1. */
  lemma ConnectionStarts(ti: nat, rpdu: seq<bool>)
    requires ti < 16
    ensures var src := CpBits(ti, rpdu);
            |src| >= 16 && Field(src, 0, 4) == ti && Field(src, 4, 4) == 9 && Field(src, 8, 8) == 1
  {
    var src := CpBits(ti, rpdu);
    InFront(MsbBits(ti, 4) + MsbBits(9, 4) + MsbBits(1, 8), LvBits(Pdu(rpdu)));
    AtSplit(src, 0, MsbBits(ti, 4) + MsbBits(9, 4), MsbBits(1, 8));
    AtSplit(src, 0, MsbBits(ti, 4), MsbBits(9, 4));
    assert Pow2(4) == 16 && Pow2(8) == 256;
    FieldAt(src, 0, ti, 4);
    FieldAt(src, 4, 9, 4);
    FieldAt(src, 8, 1, 8);
  }

  /** An address in SMS-DELIVER starts with the number of its characters, then the extension bit, its
      type and its plan. */
  lemma AddressStarts(a: Address)
    requires |a.digits| < 256 && a.ton < 8 && a.plan < 16
    ensures var src := TlAddressBits(a);
            |src| >= 16 && Field(src, 0, 8) == |a.digits| && Field(src, 8, 8) == 128 + 16 * a.ton + a.plan
  {
    var src := TlAddressBits(a);
    InFront(MsbBits(|a.digits|, 8) + TypeBits(a), DigitBits(a.digits));
    AtSplit(src, 0, MsbBits(|a.digits|, 8), TypeBits(a));
    assert Pow2(8) == 256;
    FieldAt(src, 0, |a.digits|, 8);
    TypeOctet(src, 8, a);
  }

  lemma TypeOctet(src: seq<bool>, at: nat, a: Address)
    requires At(src, at, TypeBits(a)) && a.ton < 8 && a.plan < 16
    ensures Field(src, at, 8) == 128 + 16 * a.ton + a.plan
  {
    AtSplit(src, at, MsbBits(1, 1) + MsbBits(a.ton, 3), MsbBits(a.plan, 4));
    AtSplit(src, at, MsbBits(1, 1), MsbBits(a.ton, 3));
    assert Pow2(1) == 2 && Pow2(3) == 8 && Pow2(4) == 16;
    FieldAt(src, at, 1, 1);
    FieldAt(src, at + 1, a.ton, 3);
    FieldAt(src, at + 4, a.plan, 4);
    FieldsJoin(src, at, 1, 3);
    FieldsJoin(src, at, 4, 4);
  }

  lemma JoinedNibbles(src: seq<bool>, at: nat, high: nat, low: nat)
    requires high < 16 && low < 16 && At(src, at, OctetBits(high, low))
    ensures Field(src, at, 8) == 16 * high + low
  {
    assert Pow2(4) == 16;
    OctetAt(src, at, high, low);
    FieldsJoin(src, at, 4, 4);
  }

  lemma NibbleValues(ds: string, k: nat)
    requires 2 * k < |ds| && forall i :: 0 <= i < |ds| ==> '0' <= ds[i] <= '9'
    ensures LowNibble(ds, k) == ds[2 * k] as nat - 48
    ensures HighNibble(ds, k) == if 2 * k + 1 < |ds| then ds[2 * k + 1] as nat - 48 else 15
  {
  }

  /** Octet k of a number in digits holds two of them, the earlier one in the low half, and 15 in the
      high half when there is none left. */
  lemma DigitOctet(digits: string, k: nat)
    requires k < LengthV(digits) && forall i :: 0 <= i < |Dialed(digits)| ==> '0' <= Dialed(digits)[i] <= '9'
    ensures var ds := Dialed(digits);
            var high := if 2 * k + 1 < |ds| then ds[2 * k + 1] as nat - 48 else 15;
            Field(DigitBits(digits), 8 * k, 8) == 16 * high + (ds[2 * k] as nat - 48)
  {
    var ds, src := Dialed(digits), DigitBits(digits);
    AtSlice(src, 0, src);
    OctetsStand(src, 0, ds, LengthV(digits), k);
    JoinedNibbles(src, 8 * k, HighNibble(ds, k), LowNibble(ds, k));
    NibbleValues(ds, k);
  }

  /** The octets between the address and the user data: protocol identifier, coding scheme, time stamp. */
  lemma CodesStand(d: DeliverFields)
    requires DeliverOk(d) && d.ud.dcs < 256
    ensures var src, at := DeliverBits(d), 24 + 8 * LengthV(d.oa.digits);
            && |src| >= at + 72
            && Field(src, at, 8) == d.pid % 256 && Field(src, at + 8, 8) == d.ud.dcs && src[at + 16..at + 72] == d.scts
  {
    var src, at := DeliverBits(d), 24 + 8 * LengthV(d.oa.digits);
    FieldsStand(d, src, at);
    LengthOctet(d.pid);
    AtSplit(src, at, MsbBits(d.pid, 8), MsbBits(d.ud.dcs, 8));
    assert Pow2(8) == 256;
    FieldAt(src, at, d.pid % 256, 8);
    FieldAt(src, at + 8, d.ud.dcs, 8);
    StampStands(d);
  }

  lemma StampStands(d: DeliverFields)
    requires DeliverOk(d)
    ensures var src, at := DeliverBits(d), 40 + 8 * LengthV(d.oa.digits);
            |src| >= at + 56 && src[at..at + 56] == d.scts
  {
    var front := HeaderBits(d.ud.udhi) + TlAddressBits(d.oa) + CodeBits(d.pid, d.ud.dcs);
    TlLength(d.oa);
    assert DeliverBits(d) == front + d.scts + WireBits(d.ud);
    assert |front| == 40 + 8 * LengthV(d.oa.digits);
  }
}
