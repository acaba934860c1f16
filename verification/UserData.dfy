/** The user data of a short message: 7-bit packing (section 6 of GSM 03.38) and the user data
    header in front of it (section 9.2.3.24 of GSM 03.40). */
module UserData {
  import opened Wrappers
  import opened Bits
  import opened Octets
  import opened GsmAlphabet

  datatype DataError = BadlyFormatted | UnsupportedDcs | BadHeader | Truncated

  /** The fields of a TLUserData object. */
  datatype UdFields = UdFields(dcs: nat, udhi: bool, length: nat, raw: seq<bool>)

  /** A C string: no NUL, every character one byte. */
  ghost predicate CString(text: string) {
    forall i :: 0 <= i < |text| ==> 0 < text[i] as nat < 256
  }

  ghost predicate Alphabetic(text: string) {
    forall i :: 0 <= i < |text| ==> InAlphabet(text[i])
  }

  // ---- Packing ----

  /** The first k septets, each least significant bit first. */
  function SeptetBits(text: string, k: nat): (b: seq<bool>)
    requires k <= |text|
    ensures |b| == 7 * k
  {
    if k == 0 then [] else SeptetBits(text, k - 1) + LsbBits(Septet(text[k - 1]), 7)
  }

  /** Octets that n septets take. */
  function PackedOctets(n: nat): (octets: nat)
    ensures 7 * n <= 8 * octets < 7 * n + 8
  {
    (n * 7 + 7) / 8
  }

  /** The bits that encode7bit leaves: the septets and the filler. */
  function PackedBits(text: string): (b: seq<bool>)
    ensures |b| == 8 * PackedOctets(|text|)
  {
    SeptetBits(text, |text|) + MsbBits(0, 8 * PackedOctets(|text|) - 7 * |text|)
  }

  function Encoded(text: string): UdFields {
    UdFields(0, false, |text|, PackedBits(text))
  }

  // ---- Decoding ----

  predicate SevenBit(dcs: nat) {
    dcs == 0 || 244 <= dcs <= 247
  }

  /** Septets taken by a header of udhl octets, its own length octet and the fill bits included. */
  function UdhSeptets(udhl: nat): nat {
    (udhl * 8 + 8 + 6) / 7
  }

  /** The septet at a bit position. */
  function SeptetAt(raw: seq<bool>, at: nat): (s: nat)
    requires at + 7 <= |raw|
    ensures s < 128
  {
    assert Pow2(7) == 128;
    FieldReversed(raw, at, 7)
  }

  /** The characters of n septets. */
  function DecodedText(raw: seq<bool>, crp: nat, n: nat): (text: string)
    requires crp + 7 * n <= |raw|
    ensures |text| == n
  {
    if n == 0 then [] else DecodedText(raw, crp, n - 1) + [DecodeGsmChar(SeptetAt(raw, crp + 7 * (n - 1)))]
  }

  /** The septets of the header that starts these data. */
  function HeaderSeptets(raw: seq<bool>): (n: nat)
    requires |raw| >= 8
    ensures n <= 293
  {
    assert Pow2(8) == 256;
    UdhSeptets(FieldReversed(raw, 0, 8))
  }

  const UNSIGNED: nat := 0x1_0000_0000

  /** The text length behind the header, an unsigned difference of 32 bits. */
  function TextSeptets(length: nat, header: nat): nat
    requires header < UNSIGNED
  {
    if header <= length then length - header else length + UNSIGNED - header
  }

  /** TLUserData::decode; reading behind the data is an error. */
  function Decode(v: UdFields): Result<string, DataError> {
    if !SevenBit(v.dcs) then Err(UnsupportedDcs)
    else if v.length * 7 > |v.raw| then Err(BadlyFormatted)
    else if !v.udhi then Ok(DecodedText(v.raw, 0, v.length))
    else if |v.raw| < 8 then Err(BadHeader)
    else
      var header := HeaderSeptets(v.raw);
      var n := TextSeptets(v.length, header);
      if 7 * header + 7 * n > |v.raw| then Err(BadHeader) else Ok(DecodedText(v.raw, 7 * header, n))
  }

  // ---- The wire ----

  /** What TLUserData::write puts at the end of a frame. */
  function WireBits(v: UdFields): (b: seq<bool>)
    ensures |b| == 8 + |v.raw|
  {
    MsbBits(v.length, 8) + ReverseOctets(v.raw)
  }

  /** TLUserData::parse, on an object that already has its coding scheme and header flag. */
  function ParseUd(was: UdFields, src: seq<bool>, rp: nat): Result<UdFields, DataError> {
    if rp + 8 > |src| then Err(Truncated)
    else Ok(was.(length := Field(src, rp, 8), raw := ReverseOctets(src[rp + 8..])))
  }

  // ---- Packing and unpacking ----

  /** The text as it is after a loss of the characters that the alphabet does not have. */
  function Recoded(text: string, n: nat): (r: string)
    requires n <= |text|
    ensures |r| == n
  {
    if n == 0 then [] else Recoded(text, n - 1) + [DecodeGsmChar(Septet(text[n - 1]))]
  }

  lemma {:induction false} RecodedAt(text: string, n: nat, i: nat)
    requires i < n <= |text|
    ensures Recoded(text, n)[i] == DecodeGsmChar(Septet(text[i]))
    decreases n
  {
    if i < n - 1 {
      RecodedAt(text, n - 1, i);
    }
  }

  /** Nothing is lost exactly when the whole text is in the alphabet. */
  lemma NothingLost(text: string)
    requires CString(text)
    ensures Recoded(text, |text|) == text <==> Alphabetic(text)
  {
    forall i | 0 <= i < |text|
      ensures Recoded(text, |text|)[i] == text[i] <==> InAlphabet(text[i])
    {
      RecodedAt(text, |text|, i);
      CharRoundTrip(text[i]);
    }
  }

  lemma {:induction false} SeptetStands(src: seq<bool>, at: nat, text: string, n: nat, k: nat)
    requires k < n <= |text| && at + 7 * n <= |src| && At(src, at, SeptetBits(text, n))
    ensures SeptetAt(src, at + 7 * k) == Septet(text[k])
    decreases n
  {
    AtSplit(src, at, SeptetBits(text, n - 1), LsbBits(Septet(text[n - 1]), 7));
    if k < n - 1 {
      SeptetStands(src, at, text, n - 1, k);
    } else {
      assert Pow2(7) == 128;
      FieldReversedAt(src, at + 7 * k, Septet(text[k]), 7);
    }
  }

  ghost predicate SeptetIs(src: seq<bool>, at: nat, text: string, k: nat) {
    at + 7 * k + 7 <= |src| && k < |text| && SeptetAt(src, at + 7 * k) == Septet(text[k])
  }

  ghost predicate TextStands(src: seq<bool>, at: nat, text: string) {
    at + 7 * |text| <= |src|
    && forall k {:trigger SeptetIs(src, at, text, k)} :: 0 <= k < |text| ==> SeptetIs(src, at, text, k)
  }

  lemma OneStands(src: seq<bool>, at: nat, text: string, k: nat)
    requires k < |text| && at + 7 * |text| <= |src| && At(src, at, SeptetBits(text, |text|))
    ensures SeptetIs(src, at, text, k)
  {
    SeptetStands(src, at, text, |text|, k);
  }

  lemma AllStand(src: seq<bool>, at: nat, text: string)
    requires at + 7 * |text| <= |src| && At(src, at, SeptetBits(text, |text|))
    ensures TextStands(src, at, text)
  {
    forall k: nat {:trigger SeptetIs(src, at, text, k)} | k < |text|
      ensures SeptetIs(src, at, text, k)
    {
      OneStands(src, at, text, k);
    }
  }

  /** Septets that stand somewhere decode to their text. */
  lemma {:induction false} SeptetsReadBack(src: seq<bool>, at: nat, text: string, k: nat)
    requires k <= |text| && TextStands(src, at, text)
    ensures DecodedText(src, at, k) == Recoded(text, k)
    decreases k
  {
    if k > 0 {
      SeptetsReadBack(src, at, text, k - 1);
      assert SeptetIs(src, at, text, k - 1);
      OneMoreSeptet(src, at, text, k);
    }
  }

  lemma OneMoreSeptet(src: seq<bool>, at: nat, text: string, k: nat)
    requires 0 < k <= |text| && at + 7 * k <= |src|
    requires DecodedText(src, at, k - 1) == Recoded(text, k - 1)
    requires SeptetAt(src, at + 7 * (k - 1)) == Septet(text[k - 1])
    ensures DecodedText(src, at, k) == Recoded(text, k)
  {
  }

  lemma PackedStands(text: string)
    ensures At(PackedBits(text), 0, SeptetBits(text, |text|))
  {
    AtSlice(PackedBits(text), 0, PackedBits(text));
    AtSplit(PackedBits(text), 0, SeptetBits(text, |text|), MsbBits(0, 8 * PackedOctets(|text|) - 7 * |text|));
  }

  /** Round trip in memory: decoding an encoded text gives the text back exactly when the alphabet
      has all its characters, whatever its length. */
  lemma EncodeDecode(text: string)
    requires CString(text)
    ensures Decode(Encoded(text)) == Ok(text) <==> Alphabetic(text)
  {
    PackedStands(text);
    AllStand(PackedBits(text), 0, text);
    SeptetsReadBack(PackedBits(text), 0, text, |text|);
    NothingLost(text);
  }

  // ---- Base conversion ----

  /** The septets of a text from the k-th on as a number in base 128, the k-th least significant. */
  function SeptetsValue(text: string, k: nat): nat
    requires k <= |text|
    decreases |text| - k
  {
    if k == |text| then 0 else Septet(text[k]) + 128 * SeptetsValue(text, k + 1)
  }

  lemma {:induction false} SeptetsSum(src: seq<bool>, at: nat, text: string, k: nat)
    requires k <= |text| && at + 7 * |text| <= |src| && At(src, at, SeptetBits(text, |text|))
    ensures FieldReversed(src, at + 7 * k, 7 * (|text| - k)) == SeptetsValue(text, k)
    decreases |text| - k
  {
    if k < |text| {
      var rest := 7 * (|text| - k - 1);
      SeptetsSum(src, at, text, k + 1);
      SeptetStands(src, at, text, |text|, k);
      assert Pow2(7) == 128;
      FieldReversedSplit(src, at + 7 * k, 7, rest);
    }
  }

  lemma FillerIsZero(text: string)
    ensures FieldReversed(PackedBits(text), 0, |PackedBits(text)|)
            == FieldReversed(PackedBits(text), 0, 7 * |text|)
  {
    var b, n: nat := PackedBits(text), 7 * |text|;
    var filler: nat := |b| - n;
    forall i | n <= i < n + filler
      ensures !b[i]
    {
      assert b[i] == MsbBits(0, filler)[i - n];
      ZeroBits(filler - 1 - (i - n));
    }
    ZerosField(b, n, filler);
    FieldThenZeros(b, n, filler);
  }

  lemma FieldThenZeros(src: seq<bool>, n: nat, filler: nat)
    requires |src| == n + filler && FieldReversed(src, n, filler) == 0
    ensures FieldReversed(src, 0, |src|) == FieldReversed(src, 0, n)
  {
    FieldReversedSplit(src, 0, n, filler);
    TimesZero(Pow2(n), FieldReversed(src, n, filler));
  }

  lemma TimesZero(p: nat, z: nat)
    requires z == 0
    ensures p * z == 0
  {
  }

  lemma {:induction false} ZeroBits(k: nat)
    ensures !BitOf(0, k)
  {
    if k > 0 {
      ZeroBits(k - 1);
    }
  }

  /** Packing is a change of base: the octets on the wire, as a number in base 256, are the septets
      of the text, as a number in base 128, both with the first digit least significant. */
  lemma PackingIsBaseConversion(text: string)
    ensures OctetsValue(ReverseOctets(PackedBits(text))) == SeptetsValue(text, 0)
  {
    ReversedOctetsValue(PackedBits(text), PackedOctets(|text|));
    FillerIsZero(text);
    PackedStands(text);
    SeptetsSum(PackedBits(text), 0, text, 0);
  }

  // ---- Over the wire ----

  lemma LengthOctet(n: nat)
    ensures MsbBits(n, 8) == MsbBits(n % 256, 8)
  {
    LowBits(n, n / 256, n % 256, 8);
  }

  /** Bits below the e-th do not see a multiple of its weight. */
  lemma {:induction false} LowBits(v: nat, high: nat, low: nat, e: nat)
    requires v == Pow2(e) * high + low
    ensures MsbBits(v, e) == MsbBits(low, e)
  {
    forall k: nat | k < e
      ensures BitOf(v, k) == BitOf(low, k)
    {
      LowBit(v, high, low, e, k);
    }
  }

  lemma {:induction false} LowBit(v: nat, high: nat, low: nat, e: nat, k: nat)
    requires k < e && v == Pow2(e) * high + low
    ensures BitOf(v, k) == BitOf(low, k)
    decreases k
  {
    Halves(v, Pow2(e - 1), high, low);
    if k > 0 {
      LowBit(v / 2, high, low / 2, e - 1, k - 1);
    }
  }

  lemma Halves(v: nat, p: nat, high: nat, low: nat)
    requires v == (2 * p) * high + low
    ensures v % 2 == low % 2 && v / 2 == p * high + low / 2
  {
    assert v == 2 * (p * high) + low;
  }

  /** A written element at the end of a frame is parsed with its length modulo 256 and its data. */
  lemma WireReadsBack(v: UdFields, was: UdFields, src: seq<bool>, rp: nat)
    requires rp <= |src| && src[rp..] == WireBits(v)
    ensures ParseUd(was, src, rp) == Ok(was.(length := v.length % 256, raw := v.raw))
  {
    var b := WireBits(v);
    assert |src| == rp + |b|;
    assert Field(src, rp, 8) == v.length % 256 by {
      AtSlice(src, rp, b);
      AtSplit(src, rp, MsbBits(v.length, 8), ReverseOctets(v.raw));
      LengthOctet(v.length);
      assert Pow2(8) == 256;
      FieldAt(src, rp, v.length % 256, 8);
    }
    assert src[rp + 8..] == src[rp..][8..] == ReverseOctets(v.raw);
    ReverseOctetsTwice(v.raw);
  }

  lemma OctetHolds(n: nat)
    ensures n % 256 == n <==> n <= 255
  {
  }

  /** Round trip over the wire: encoded, written, parsed and decoded, a text comes back exactly when
      it has at most 255 characters, all in the alphabet. */
  lemma WireRoundTrip(text: string, src: seq<bool>, rp: nat, was: UdFields)
    requires CString(text) && rp <= |src| && src[rp..] == WireBits(Encoded(text))
    requires was.dcs == 0 && !was.udhi
    ensures ParseUd(was, src, rp).Ok?
    ensures Decode(ParseUd(was, src, rp).value) == Ok(text) <==> |text| <= 255 && Alphabetic(text)
  {
    WireReadsBack(Encoded(text), was, src, rp);
    EncodeDecode(text);
    var v := was.(length := |text| % 256, raw := PackedBits(text));
    OctetHolds(|text|);
    if |text| <= 255 {
    } else {
      assert Decode(v).Ok? ==> |Decode(v).value| == |text| % 256;
    }
  }

  // ---- The user data header ----

  /** The skipped septets are the fewest that cover the header and its length octet. */
  lemma HeaderSeptetsLeast(udhl: nat, n: nat)
    ensures 7 * n >= 8 * (udhl + 1) <==> n >= UdhSeptets(udhl)
  {
  }

  /** A message with a header: its length octet first, the text septets after the fill bits. */
  ghost predicate HeaderThenText(v: UdFields, udhl: nat, text: string) {
    && SevenBit(v.dcs) && v.udhi && udhl < 256
    && At(v.raw, 0, LsbBits(udhl, 8))
    && At(v.raw, 7 * UdhSeptets(udhl), SeptetBits(text, |text|))
    && v.length == UdhSeptets(udhl) + |text|
  }

  /** Decoding skips the header and the fill bits and gives exactly the text behind them; all
      septets it reads lie inside the range that was checked against the data. */
  lemma HeaderSkipped(v: UdFields, udhl: nat, text: string)
    requires CString(text) && HeaderThenText(v, udhl, text)
    ensures Decode(v) == Ok(text) <==> Alphabetic(text)
    ensures 8 * (udhl + 1) <= 7 * UdhSeptets(udhl) && 7 * UdhSeptets(udhl) + 7 * |text| == 7 * v.length <= |v.raw|
  {
    assert FieldReversed(v.raw, 0, 8) == udhl by {
      assert Pow2(8) == 256;
      FieldReversedAt(v.raw, 0, udhl, 8);
    }
    HeaderSeptetsLeast(udhl, UdhSeptets(udhl));
    AllStand(v.raw, 7 * UdhSeptets(udhl), text);
    SeptetsReadBack(v.raw, 7 * UdhSeptets(udhl), text, |text|);
    NothingLost(text);
  }

  /** With a header, text is delivered exactly when the header ends inside the counted septets, or
      there are data for a text length that has wrapped around. */
  lemma HeaderFits(v: UdFields)
    requires SevenBit(v.dcs) && v.udhi && v.length * 7 <= |v.raw| && |v.raw| >= 8
    ensures Decode(v).Ok? <==>
            8 * (FieldReversed(v.raw, 0, 8) + 1) <= 7 * v.length || 7 * (v.length + UNSIGNED) <= |v.raw|
  {
    HeaderSeptetsLeast(FieldReversed(v.raw, 0, 8), v.length);
  }

  // ---- The class ----

  method EncodeSeptet(c: char) returns (gsm: nat)
    requires c as nat != 0
    ensures gsm == Septet(c)
  {
    ReverseFinds(c as nat, 129);
    assert Entry(128) == 0;
    gsm := EncodeGsmChar(c);
  }

  /** The loop of encode7bit. */
  method PackSeptets(dest: array<bool>, text: string) returns (wp: nat)
    requires CString(text) && 7 * |text| <= dest.Length
    modifies dest
    ensures wp == 7 * |text|
    ensures dest[..] == Overwrite(old(dest[..]), 0, SeptetBits(text, |text|))
  {
    ghost var was := dest[..];
    wp := 0;
    var i: nat := 0;
    while i < |text|
      invariant i <= |text| && wp == 7 * i && 7 * |text| <= dest.Length == |was|
      invariant dest[..] == Overwrite(was, 0, SeptetBits(text, i))
    {
      var gsm := EncodeSeptet(text[i]);
      SeptetWritten(was, text, i);
      wp := WriteFieldReversed(dest, wp, gsm, 7);
      i := i + 1;
    }
  }

  lemma SeptetWritten(frame: seq<bool>, text: string, i: nat)
    requires i < |text| && 7 * i + 7 <= |frame|
    ensures Overwrite(Overwrite(frame, 0, SeptetBits(text, i)), 7 * i, LsbBits(Septet(text[i]), 7))
            == Overwrite(frame, 0, SeptetBits(text, i + 1))
  {
    OverwriteTwice(frame, 0, SeptetBits(text, i), LsbBits(Septet(text[i]), 7));
  }

  lemma DecodesPlain(v: UdFields, text: string)
    requires SevenBit(v.dcs) && v.length * 7 <= |v.raw| && !v.udhi
    requires text == DecodedText(v.raw, 0, v.length)
    ensures Decode(v) == Ok(text)
  {
  }

  lemma DecodesBehindHeader(v: UdFields, header: nat, n: nat, text: string)
    requires SevenBit(v.dcs) && v.length * 7 <= |v.raw| && v.udhi && |v.raw| >= 8
    requires header == HeaderSeptets(v.raw) && n == TextSeptets(v.length, header) && 7 * header + 7 * n <= |v.raw|
    requires text == DecodedText(v.raw, 7 * header, n)
    ensures Decode(v) == Ok(text)
  {
  }

  /** The loop of decode. */
  method DecodeSeptets(raw: seq<bool>, start: nat, textLength: nat) returns (text: string)
    requires start + 7 * textLength <= |raw|
    ensures text == DecodedText(raw, start, textLength)
  {
    var crp: nat := start;
    text := "";
    for i := 0 to textLength
      invariant crp == start + 7 * i
      invariant text == DecodedText(raw, start, i)
    {
      var gsm := SeptetAt(raw, crp);
      crp := crp + 7;
      text := text + [DecodeGsmChar(gsm)];
    }
  }

  lemma TailAfterWrites(was: seq<bool>, wp: nat, a: seq<bool>, b: seq<bool>)
    requires wp + |a| + |b| <= |was|
    ensures var now := Overwrite(Overwrite(was, wp, a), wp + |a|, b);
            now[..wp + |a|] == was[..wp] + a && now[wp + |a|..] == b + was[wp + |a| + |b|..]
  {
  }

  /** The length octet, the data, and LSB8MSB on everything behind the length octet. */
  method WriteUserData(dest: array<bool>, wp: nat, length: nat, raw: seq<bool>) returns (next: nat)
    requires wp + 8 + |raw| <= dest.Length
    modifies dest
    ensures next == wp + 8
    ensures dest[..] == old(dest[..wp]) + MsbBits(length, 8) + ReverseOctets(raw + old(dest[wp + 8 + |raw|..]))
  {
    next := WriteField(dest, wp, length, 8);
    WriteBits(dest, next, raw);
    TailAfterWrites(old(dest[..]), wp, MsbBits(length, 8), raw);
    Lsb8Msb(dest, next);
  }

  /** When the data end with the frame, just they are reversed. */
  lemma LastFieldWritten(was: seq<bool>, wp: nat, v: UdFields)
    requires |was| == wp + 8 + |v.raw|
    ensures was[..wp] + MsbBits(v.length, 8) + ReverseOctets(v.raw + was[wp + 8 + |v.raw|..])
            == Overwrite(was, wp, WireBits(v))
  {
    assert v.raw + was[wp + 8 + |v.raw|..] == v.raw;
  }

  class TLUserData {
    var dcs: nat
    var udhi: bool
    var length: nat
    var rawData: array<bool>

    ghost function Fields(): UdFields
      reads this, rawData
    {
      UdFields(dcs, udhi, length, rawData[..])
    }

    constructor (dcs: nat, udhi: bool)
      ensures Fields() == UdFields(dcs, udhi, 0, []) && fresh(rawData)
    {
      this.dcs, this.udhi, length := dcs, udhi, 0;
      rawData := new bool[0];
    }

    /** TLUserData::encode7bit */
    method Encode7bit(text: string)
      requires CString(text)
      modifies this
      ensures fresh(rawData) && Fields() == Encoded(text).(udhi := old(udhi))
    {
      var wp: nat := 0;
      dcs := 0;
      length := |text|;
      var bytes: nat := (length * 7 + 7) / 8;
      var filler: nat := bytes * 8 - length * 7;
      rawData := new bool[bytes * 8];
      ghost var blank := rawData[..];
      wp := PackSeptets(rawData, text);
      wp := WriteField(rawData, wp, 0, filler);
      OverwriteTwice(blank, 0, SeptetBits(text, |text|), MsbBits(0, filler));
      OverwriteAll(blank, PackedBits(text));
    }

    /** TLUserData::decode */
    method DecodeText() returns (r: Result<string, DataError>)
      ensures r == Decode(Fields())
    {
      if dcs != 0 && dcs != 244 && dcs != 245 && dcs != 246 && dcs != 247 {
        return Err(UnsupportedDcs);
      }
      if length * 7 > rawData.Length {
        return Err(BadlyFormatted);
      }
      if !udhi {
        var whole := DecodeSeptets(rawData[..], 0, length);
        DecodesPlain(Fields(), whole);
        return Ok(whole);
      }
      if rawData.Length < 8 {
        return Err(BadHeader);
      }
      var udhSeptets := HeaderSeptets(rawData[..]);
      var textLength := TextSeptets(length, udhSeptets);
      if 7 * udhSeptets + 7 * textLength > rawData.Length {
        return Err(BadHeader);
      }
      var text := DecodeSeptets(rawData[..], 7 * udhSeptets, textLength);
      DecodesBehindHeader(Fields(), udhSeptets, textLength, text);
      return Ok(text);
    }

    /** TLUserData::write, the last field of its frame. */
    method Write(dest: array<bool>, wp: nat) returns (next: nat)
      requires wp + 8 + rawData.Length <= dest.Length && dest != rawData
      modifies dest
      ensures next == wp + 8
      ensures dest[..] == old(dest[..wp]) + MsbBits(length, 8)
                          + ReverseOctets(rawData[..] + old(dest[wp + 8 + rawData.Length..]))
    {
      next := WriteUserData(dest, wp, length, rawData[..]);
    }

    /** TLUserData::parse */
    method Parse(src: seq<bool>, rp: nat) returns (r: Option<DataError>)
      modifies this
      ensures match ParseUd(old(Fields()), src, rp)
              case Ok(v) => r == None && Fields() == v && fresh(rawData)
              case Err(why) => r == Some(why) && Fields() == old(Fields())
    {
      if rp + 8 > |src| {
        return Some(Truncated);
      }
      length := Field(src, rp, 8);
      var rest := src[rp + 8..];
      rawData := new bool[|rest|](i requires 0 <= i < |rest| => rest[i]);
      assert rawData[..] == rest;
      Lsb8Msb(rawData, 0);
      return None;
    }
  }
}
