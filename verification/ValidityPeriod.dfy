/** The relative validity period of a short message (section 9.2.3.12.1 of GSM 03.40). */
module ValidityPeriod {
  import opened Wrappers
  import opened Bits

  const WEEK: nat := 7 * 24 * 60

  /** TLValidityPeriod::write: the code for a number of minutes from now. */
  function Encode(minutes: int): (vp: nat)
    ensures vp < 256
  {
    var m := if minutes < 1 then 1 else minutes;
    var vp :=
      if m <= 720 then (m - 1) / 5
      else if m < 1440 then 143 + (m - 720) / 30
      else if m < 43200 then 166 + m / 1440
      else 192 + m / 10080;
    if vp > 255 then 255 else vp
  }

  /** TLValidityPeriod::parse: the minutes that a code stands for. */
  function Decode(vp: nat): nat {
    if vp < 144 then (vp + 1) * 5
    else if vp < 168 then 12 * 60 + (vp - 143) * 30
    else if vp < 197 then 24 * 60 * (vp - 166)
    else 7 * 24 * 60 * (vp - 192)
  }

  /** Longer codes mean longer periods. */
  lemma DecodeMonotone(a: nat, b: nat)
    requires a < b < 256
    ensures Decode(a) < Decode(b)
  {
  }

  /** Encoding undoes decoding on every code. */
  lemma EncodeUndoesDecode(vp: nat)
    requires vp < 256
    ensures Encode(Decode(vp)) == vp
  {
  }

  /** Up to twelve hours the period is rounded up: the code is the one for the shortest period that
      is at least the one asked for. */
  lemma RoundsUp(m: int, vp: nat)
    requires 1 <= m <= 720 && vp < 256
    ensures m <= Decode(Encode(m))
    ensures m <= Decode(vp) ==> Encode(m) <= vp && Decode(Encode(m)) <= Decode(vp)
  {
    if Encode(m) < vp {
      DecodeMonotone(Encode(m), vp);
    }
  }

  /** Above twelve hours it is rounded down: the code is the one for the longest period that is at
      most the one asked for, which is 63 weeks for everything longer. */
  lemma RoundsDown(m: int, vp: nat)
    requires m > 720 && vp < 256
    ensures Decode(Encode(m)) <= m
    ensures Decode(vp) <= m ==> vp <= Encode(m) && Decode(vp) <= Decode(Encode(m))
  {
    if vp < Encode(m) {
      DecodeMonotone(vp, Encode(m));
    }
  }

  /** A period that is over already is sent as the shortest one. */
  lemma ExpiredIsShortest(m: int, vp: nat)
    requires m < 1 && vp < 256
    ensures Encode(m) == 0 && Decode(Encode(m)) <= Decode(vp)
  {
  }

  /** The number of whole minutes in a number of seconds, as C divides. */
  function Minutes(seconds: int): int {
    if seconds >= 0 then seconds / 60 else -(-seconds / 60)
  }

  /** The seconds left over are less than a minute, and on the side of the sign. */
  lemma WholeMinutes(seconds: int)
    ensures seconds >= 0 ==> 60 * Minutes(seconds) <= seconds < 60 * Minutes(seconds) + 60
    ensures seconds < 0 ==> 60 * Minutes(seconds) - 60 < seconds <= 60 * Minutes(seconds)
  {
  }

  /** The four ranges of codes: minutes by five, half hours, days, weeks. */
  lemma Ranges(n: nat)
    ensures 1 <= n <= 144 ==> Decode(n - 1) == 5 * n
    ensures 25 <= n <= 48 ==> Decode(n + 119) == 30 * n
    ensures 2 <= n <= 30 ==> Decode(n + 166) == 1440 * n
    ensures 5 <= n <= 63 ==> Decode(n + 192) == 10_080 * n
  {
  }

  /** TLValidityPeriod::write, with the time that is left. */
  method Write(dest: array<bool>, wp: nat, vpf: nat, seconds: int) returns (next: nat)
    requires vpf <= 1 && wp + 8 * vpf <= dest.Length
    modifies dest
    ensures next == wp + 8 * vpf
    ensures vpf == 0 ==> dest[..] == old(dest[..])
    ensures vpf == 1 ==> dest[..] == Overwrite(old(dest[..]), wp, MsbBits(Encode(Minutes(seconds)), 8))
  {
    if vpf == 0 {
      return wp;
    }
    var minutes := Minutes(seconds);
    if minutes < 1 {
      minutes := 1;
    }
    var vp;
    if minutes <= 720 {
      vp := (minutes - 1) / 5;
    } else if minutes < 1440 {
      vp := 143 + (minutes - 720) / 30;
    } else if minutes < 43200 {
      vp := 166 + minutes / (24 * 60);
    } else {
      vp := 192 + minutes / (7 * 24 * 60);
    }
    if vp > 255 {
      vp := 255;
    }
    next := WriteField(dest, wp, vp, 8);
  }

  /** TLValidityPeriod::parse: the minutes from now and the read position; the absolute format is
      not part of this model. */
  function Parse(vpf: nat, src: seq<bool>, rp: nat): Option<(nat, nat)> {
    if vpf == 2 then (if rp + 8 <= |src| then Some((Decode(Field(src, rp, 8)), rp + 8)) else None)
    else if vpf == 1 then Some((WEEK, rp + 7))
    else if vpf == 0 then Some((WEEK, rp))
    else None
  }

  /** The writer calls the relative format 1 and the parser calls it 2: an octet that was written
      reads back as the rounded period under the parser's number, and under the writer's own number
      as one week behind seven skipped bits, whatever was written. */
  lemma FormatsDisagree(src: seq<bool>, rp: nat, minutes: int)
    requires At(src, rp, MsbBits(Encode(minutes), 8))
    ensures Parse(2, src, rp) == Some((Decode(Encode(minutes)), rp + 8))
    ensures Parse(1, src, rp) == Some((10_080, rp + 7))
  {
    assert Pow2(8) == 256;
    FieldAt(src, rp, Encode(minutes), 8);
  }
}
