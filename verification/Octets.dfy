/** Bit order inside octets: LSB8MSB, and a frame as a number in base 256. */
module Octets {
  import opened Bits

  /** The first octet, backwards. */
  function Mirrored(b: seq<bool>): (r: seq<bool>)
    requires |b| >= 8
    ensures |r| == 8
  {
    seq(8, i requires 0 <= i < 8 => b[7 - i])
  }

  /** BitVector::LSB8MSB: every whole octet is reversed, a shorter rest stays. */
  function ReverseOctets(b: seq<bool>): (r: seq<bool>)
    ensures |r| == |b|
  {
    if |b| < 8 then b else Mirrored(b) + ReverseOctets(b[8..])
  }

  lemma MirroredTwice(b: seq<bool>, r: seq<bool>)
    requires |b| >= 8 && |r| >= 8 && r[..8] == Mirrored(b)
    ensures Mirrored(r) == b[..8]
  {
    forall i | 0 <= i < 8
      ensures Mirrored(r)[i] == b[i]
    {
      assert r[7 - i] == r[..8][7 - i];
    }
  }

  lemma {:induction false} ReverseOctetsTwice(b: seq<bool>)
    ensures ReverseOctets(ReverseOctets(b)) == b
  {
    if |b| >= 8 {
      var r := ReverseOctets(b);
      assert r[8..] == ReverseOctets(b[8..]);
      ReverseOctetsTwice(b[8..]);
      MirroredTwice(b, r);
      assert b == b[..8] + b[8..];
    }
  }

  /** LSB8MSB on the tail of a frame. */
  method Lsb8Msb(dest: array<bool>, from: nat)
    requires from <= dest.Length
    modifies dest
    ensures dest[..] == old(dest[..from]) + ReverseOctets(old(dest[from..]))
  {
    WriteBits(dest, from, ReverseOctets(dest[from..]));
  }

  /** The whole octets of a frame as a number, the first octet the least significant. */
  function OctetsValue(wire: seq<bool>): nat {
    if |wire| < 8 then 0 else Field(wire, 0, 8) + 256 * OctetsValue(wire[8..])
  }

  lemma TwiceTimes(p: nat, y: nat, bit: nat, x: nat)
    ensures bit + 2 * (x + p * y) == (bit + 2 * x) + (2 * p) * y
  {
  }

  /** A field read LSB-first is the sum of its two parts. */
  lemma {:induction false} FieldReversedSplit(src: seq<bool>, rp: nat, a: nat, b: nat)
    requires rp + a + b <= |src|
    ensures FieldReversed(src, rp, a + b) == FieldReversed(src, rp, a) + Pow2(a) * FieldReversed(src, rp + a, b)
    decreases a
  {
    if a > 0 {
      var rest := FieldReversed(src, rp + a, b);
      var low := FieldReversed(src, rp + 1, a - 1);
      assert FieldReversed(src, rp + 1, a - 1 + b) == low + Pow2(a - 1) * rest by {
        FieldReversedSplit(src, rp + 1, a - 1, b);
      }
      TwiceTimes(Pow2(a - 1), rest, Bit(src[rp]), low);
    }
  }

  lemma {:induction false} FieldReversedShift(src: seq<bool>, from: nat, rp: nat, n: nat)
    requires from + rp + n <= |src|
    ensures FieldReversed(src[from..], rp, n) == FieldReversed(src, from + rp, n)
    decreases n
  {
    if n > 0 {
      FieldReversedShift(src, from, rp + 1, n - 1);
    }
  }

  /** Reading reversed bits forwards is reading the bits backwards. */
  lemma {:induction false} MirroredField(wire: seq<bool>, b: seq<bool>, n: nat)
    requires n <= 8 <= |wire| && 8 <= |b| && wire[..8] == Mirrored(b)
    ensures Field(wire, 0, n) == FieldReversed(b, 8 - n, n)
  {
    if n > 0 {
      assert wire[n - 1] == wire[..8][n - 1] == b[8 - n];
      MirroredField(wire, b, n - 1);
    }
  }

  lemma FirstOctet(b: seq<bool>)
    requires |b| >= 8
    ensures var wire := ReverseOctets(b);
            Field(wire, 0, 8) == FieldReversed(b, 0, 8) && wire[8..] == ReverseOctets(b[8..])
  {
    var wire := ReverseOctets(b);
    assert wire[..8] == Mirrored(b);
    MirroredField(wire, b, 8);
  }

  lemma LowOctet(b: seq<bool>, rest: nat)
    requires |b| == 8 + rest
    ensures FieldReversed(b, 0, 8 + rest) == FieldReversed(b, 0, 8) + 256 * FieldReversed(b[8..], 0, rest)
  {
    assert Pow2(8) == 256;
    FieldReversedSplit(b, 0, 8, rest);
    FieldReversedShift(b, 8, 0, rest);
  }

  /** What LSB8MSB is for: the octets of the reversed frame, read as one number in base 256, are
      the value of the bits read LSB-first. */
  lemma {:induction false} ReversedOctetsValue(b: seq<bool>, octets: nat)
    requires |b| == 8 * octets
    ensures OctetsValue(ReverseOctets(b)) == FieldReversed(b, 0, |b|)
  {
    if octets > 0 {
      FirstOctet(b);
      ReversedOctetsValue(b[8..], octets - 1);
      LowOctet(b, |b| - 8);
    }
  }

  lemma {:induction false} ZerosField(src: seq<bool>, rp: nat, n: nat)
    requires rp + n <= |src| && forall i :: rp <= i < rp + n ==> !src[i]
    ensures FieldReversed(src, rp, n) == 0
    decreases n
  {
    if n > 0 {
      ZerosField(src, rp + 1, n - 1);
    }
  }
}
