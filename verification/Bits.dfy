/** Bit strings and the assumed contracts of the BitVector primitives: fields are written and
    read MSB-first, the Reversed forms LSB-first, and LSB8MSB reverses each whole octet. */
module Bits {
  function Bit(b: bool): nat {
    if b then 1 else 0
  }

  function Pow2(n: nat): (p: nat)
    ensures p >= 1
  {
    if n == 0 then 1 else 2 * Pow2(n - 1)
  }

  /** Bit k of v. */
  function BitOf(v: nat, k: nat): bool {
    if k == 0 then v % 2 == 1 else BitOf(v / 2, k - 1)
  }

  /** The low n bits of v, most significant first. */
  function MsbBits(v: nat, n: nat): (b: seq<bool>)
    ensures |b| == n
  {
    seq(n, i requires 0 <= i < n => BitOf(v, n - 1 - i))
  }

  /** The low n bits of v, least significant first. */
  function LsbBits(v: nat, n: nat): (b: seq<bool>)
    ensures |b| == n
  {
    seq(n, i requires 0 <= i < n => BitOf(v, i))
  }

  // ---- Reading from a frame ----

  /** BitVector::peekField, within the frame: most significant bit first. */
  function Field(src: seq<bool>, rp: nat, length: nat): (v: nat)
    requires rp + length <= |src|
    ensures v < Pow2(length)
  {
    if length == 0 then 0 else 2 * Field(src, rp, length - 1) + Bit(src[rp + length - 1])
  }

  /** BitVector::peekFieldReversed, within the frame: least significant bit first. */
  function FieldReversed(src: seq<bool>, rp: nat, length: nat): (v: nat)
    requires rp + length <= |src|
    ensures v < Pow2(length)
    decreases length, rp, src
  {
    if length == 0 then 0 else Bit(src[rp]) + 2 * FieldReversed(src, rp + 1, length - 1)
  }

  ghost predicate SameBit(frame: seq<bool>, at: nat, b: seq<bool>, k: nat) {
    at + k < |frame| && k < |b| && frame[at + k] == b[k]
  }

  /** The bits b stand at position at of the frame. */
  ghost predicate At(frame: seq<bool>, at: nat, b: seq<bool>) {
    at + |b| <= |frame| && forall k {:trigger SameBit(frame, at, b, k)} :: 0 <= k < |b| ==> SameBit(frame, at, b, k)
  }

  lemma AtSplit(frame: seq<bool>, at: nat, a: seq<bool>, b: seq<bool>)
    ensures At(frame, at, a + b) <==> At(frame, at, a) && At(frame, at + |a|, b)
  {
    if At(frame, at, a + b) {
      forall k {:trigger SameBit(frame, at + |a|, b, k)} | 0 <= k < |b|
        ensures SameBit(frame, at + |a|, b, k)
      {
        assert SameBit(frame, at, a + b, |a| + k);
      }
      forall k | 0 <= k < |a|
        ensures SameBit(frame, at, a, k)
      {
        assert SameBit(frame, at, a + b, k);
      }
    }
    if At(frame, at, a) && At(frame, at + |a|, b) {
      forall k | 0 <= k < |a + b|
        ensures SameBit(frame, at, a + b, k)
      {
        assert k < |a| ==> SameBit(frame, at, a, k);
        assert k >= |a| ==> SameBit(frame, at + |a|, b, k - |a|);
      }
    }
  }

  /** A piece of a frame stands where it was cut. */
  lemma AtSlice(frame: seq<bool>, at: nat, b: seq<bool>)
    requires at + |b| <= |frame|
    ensures At(frame, at, b) <==> frame[at..at + |b|] == b
  {
    if frame[at..at + |b|] == b {
      forall k | 0 <= k < |b|
        ensures SameBit(frame, at, b, k)
      {
        assert frame[at..at + |b|][k] == b[k];
      }
    }
    if At(frame, at, b) {
      forall k | 0 <= k < |b|
        ensures frame[at..at + |b|][k] == b[k]
      {
        assert SameBit(frame, at, b, k);
      }
    }
  }

  /** A field that fits reads back as the value written. */
  lemma {:induction false} FieldAt(src: seq<bool>, rp: nat, v: nat, n: nat)
    requires v < Pow2(n) && At(src, rp, MsbBits(v, n))
    ensures Field(src, rp, n) == v
    decreases n
  {
    if n > 0 {
      assert SameBit(src, rp, MsbBits(v, n), n - 1);
      forall k: nat {:trigger SameBit(src, rp, MsbBits(v / 2, n - 1), k)} | k < n - 1
        ensures SameBit(src, rp, MsbBits(v / 2, n - 1), k)
      {
        assert SameBit(src, rp, MsbBits(v, n), k);
        assert BitOf(v, n - 1 - k) == BitOf(v / 2, n - 2 - k);
      }
      assert MsbBits(v, n)[n - 1] == BitOf(v, 0);
      FieldAt(src, rp, v / 2, n - 1);
    }
  }

  lemma {:induction false} FieldReversedAt(src: seq<bool>, rp: nat, v: nat, n: nat)
    requires v < Pow2(n) && At(src, rp, LsbBits(v, n))
    ensures FieldReversed(src, rp, n) == v
    decreases n
  {
    if n > 0 {
      assert SameBit(src, rp, LsbBits(v, n), 0);
      forall k: nat {:trigger SameBit(src, rp + 1, LsbBits(v / 2, n - 1), k)} | k < n - 1
        ensures SameBit(src, rp + 1, LsbBits(v / 2, n - 1), k)
      {
        assert SameBit(src, rp, LsbBits(v, n), k + 1);
      }
      FieldReversedAt(src, rp + 1, v / 2, n - 1);
    }
  }

  // ---- Writing into a frame ----

  /** A frame with the bits b at position at. */
  function Overwrite(frame: seq<bool>, at: nat, b: seq<bool>): (r: seq<bool>)
    requires at + |b| <= |frame|
    ensures |r| == |frame|
  {
    frame[..at] + b + frame[at + |b|..]
  }

  lemma OverwriteTwice(frame: seq<bool>, at: nat, a: seq<bool>, b: seq<bool>)
    requires at + |a| + |b| <= |frame|
    ensures Overwrite(Overwrite(frame, at, a), at + |a|, b) == Overwrite(frame, at, a + b)
  {
  }

  /** A frame overwritten from end to end holds just the new bits. */
  lemma OverwriteAll(frame: seq<bool>, b: seq<bool>)
    requires |b| == |frame|
    ensures Overwrite(frame, 0, b) == b
  {
  }

  /** BitVector::copyToSegment */
  method WriteBits(dest: array<bool>, wp: nat, b: seq<bool>)
    requires wp + |b| <= dest.Length
    modifies dest
    ensures dest[..] == Overwrite(old(dest[..]), wp, b)
  {
    forall i | 0 <= i < |b| {
      dest[wp + i] := b[i];
    }
  }

  /** BitVector::writeField */
  method WriteField(dest: array<bool>, wp: nat, value: nat, length: nat) returns (next: nat)
    requires wp + length <= dest.Length
    modifies dest
    ensures next == wp + length
    ensures dest[..] == Overwrite(old(dest[..]), wp, MsbBits(value, length))
  {
    next := wp + length;
    WriteBits(dest, wp, MsbBits(value, length));
  }

  /** BitVector::writeFieldReversed */
  method WriteFieldReversed(dest: array<bool>, wp: nat, value: nat, length: nat) returns (next: nat)
    requires wp + length <= dest.Length
    modifies dest
    ensures next == wp + length
    ensures dest[..] == Overwrite(old(dest[..]), wp, LsbBits(value, length))
  {
    next := wp + length;
    WriteBits(dest, wp, LsbBits(value, length));
  }
}
