/** Octets and bit vectors.  A vector is a sequence of octets; bit indices grow with
    the octet number and, inside an octet, from the least to the most significant bit. */
module Octets {
  type byte = b: int | 0 <= b < 256

  function Pow2(n: nat): (p: nat)
    ensures p > 0
  {
    if n == 0 then 1 else 2 * Pow2(n - 1)
  }

  /** The value of bit `k` of the number `b`, that is `(b >> k) & 1`. */
  function Bit(b: nat, k: nat): bool
    decreases k
  {
    if k == 0 then b % 2 == 1 else Bit(b / 2, k - 1)
  }

  /** `b >> n`. */
  function ShiftRight(b: nat, n: nat): (r: nat)
    ensures r <= b
    decreases n
  {
    if n == 0 then b else ShiftRight(b / 2, n - 1)
  }

  /** `b` with bit `k` replaced by `v`. */
  function SetBit(b: nat, k: nat, v: bool): nat
    decreases k
  {
    if k == 0 then b / 2 * 2 + (if v then 1 else 0) else 2 * SetBit(b / 2, k - 1, v) + b % 2
  }

  /** The number whose binary digits, least significant first, are `bits`. */
  function Pack(bits: seq<bool>): nat
  {
    if bits == [] then 0 else (if bits[0] then 1 else 0) + 2 * Pack(bits[1..])
  }

  lemma {:induction false} PackBound(bits: seq<bool>)
    ensures Pack(bits) < Pow2(|bits|)
  {
    if bits != [] {
      PackBound(bits[1..]);
    }
  }

  /** The octet holding eight bits. */
  function PackOctet(bits: seq<bool>): (b: byte)
    requires |bits| == 8
  {
    PackBound(bits);
    assert Pow2(8) == 256;
    Pack(bits)
  }

  lemma {:induction false} BitOfPack(bits: seq<bool>, k: nat)
    requires k < |bits|
    ensures Bit(Pack(bits), k) == bits[k]
  {
    if k > 0 {
      assert Pack(bits) / 2 == Pack(bits[1..]);
      BitOfPack(bits[1..], k - 1);
    }
  }

  lemma {:induction false} BitOfShiftRight(b: nat, n: nat, k: nat)
    ensures Bit(ShiftRight(b, n), k) == Bit(b, n + k)
    decreases n
  {
    if n > 0 {
      BitOfShiftRight(b / 2, n - 1, k);
    }
  }

  lemma {:induction false} ShiftRightOnce(b: nat, n: nat)
    ensures ShiftRight(b, n + 1) == ShiftRight(b, n) / 2
    decreases n
  {
    if n > 0 {
      ShiftRightOnce(b / 2, n - 1);
    }
  }

  lemma {:induction false} BitOfSetBit(b: nat, k: nat, v: bool, j: nat)
    ensures Bit(SetBit(b, k, v), j) == if j == k then v else Bit(b, j)
    decreases k
  {
    if k == 0 {
      assert SetBit(b, k, v) / 2 == b / 2;
    } else {
      assert SetBit(b, k, v) / 2 == SetBit(b / 2, k - 1, v);
      if j > 0 {
        BitOfSetBit(b / 2, k - 1, v, j - 1);
      }
    }
  }

  lemma {:induction false} SetBitBound(b: nat, k: nat, v: bool, m: nat)
    requires b < Pow2(m) && k < m
    ensures SetBit(b, k, v) < Pow2(m)
    decreases k
  {
    if k > 0 {
      SetBitBound(b / 2, k - 1, v, m - 1);
    }
  }

  // ---------------------------------------------------------------- vectors

  function VecBit(v: seq<byte>, i: nat): bool
    requires i < 8 * |v|
  {
    Bit(v[i / 8], i % 8)
  }

  function SetVecBit(v: seq<byte>, i: nat, bit: bool): (r: seq<byte>)
    requires i < 8 * |v|
    ensures |r| == |v|
  {
    assert Pow2(8) == 256;
    SetBitBound(v[i / 8], i % 8, bit, 8);
    v[i / 8 := SetBit(v[i / 8], i % 8, bit)]
  }

  lemma SetVecBitEffect(v: seq<byte>, i: nat, bit: bool, j: nat)
    requires i < 8 * |v| && j < 8 * |v|
    ensures VecBit(SetVecBit(v, i, bit), j) == if j == i then bit else VecBit(v, j)
  {
    if j / 8 == i / 8 {
      BitOfSetBit(v[i / 8], i % 8, bit, j % 8);
      assert j % 8 == i % 8 ==> j == i;
    }
  }

  /** `dst` after its bits `to..to+n` have been overwritten by the bits `from..from+n` of `src`. */
  function CopiedBits(src: seq<byte>, from: nat, dst: seq<byte>, to: nat, n: nat): (r: seq<byte>)
    requires from + n <= 8 * |src| && to + n <= 8 * |dst|
    ensures |r| == |dst|
    decreases n
  {
    if n == 0 then dst
    else SetVecBit(CopiedBits(src, from, dst, to, n - 1), to + n - 1, VecBit(src, from + n - 1))
  }

  lemma {:induction false} CopiedBitsEffect(src: seq<byte>, from: nat, dst: seq<byte>, to: nat, n: nat, j: nat)
    requires from + n <= 8 * |src| && to + n <= 8 * |dst| && j < 8 * |dst|
    ensures VecBit(CopiedBits(src, from, dst, to, n), j)
         == if to <= j < to + n then VecBit(src, from + (j - to)) else VecBit(dst, j)
    decreases n
  {
    hide SetVecBit, VecBit;
    if n > 0 {
      var d := CopiedBits(src, from, dst, to, n - 1);
      SetVecBitEffect(d, to + n - 1, VecBit(src, from + n - 1), j);
      CopiedBitsEffect(src, from, dst, to, n - 1, j);
    }
  }

  /** `dst` after `|src|` octets have been overwritten from octet `at` on. */
  function CopiedOctets(src: seq<byte>, dst: seq<byte>, at: nat): (r: seq<byte>)
    requires at + |src| <= |dst|
    ensures |r| == |dst|
  {
    dst[..at] + src + dst[at + |src|..]
  }

  lemma CopiedOctetsEffect(src: seq<byte>, dst: seq<byte>, at: nat, j: nat)
    requires at + |src| <= |dst| && j < 8 * |dst|
    ensures 8 * at <= j < 8 * (at + |src|) ==> 0 <= j - 8 * at < 8 * |src|
    ensures VecBit(CopiedOctets(src, dst, at), j)
         == if 8 * at <= j < 8 * (at + |src|) then VecBit(src, j - 8 * at) else VecBit(dst, j)
  {
    if 8 * at <= j < 8 * (at + |src|) {
      assert (j - 8 * at) / 8 == j / 8 - at && (j - 8 * at) % 8 == j % 8;
    }
  }

  // ---------------------------------------------------------------- in-place operations

  method WriteBit(dst: array<byte>, idx: nat, bit: bool)
    requires idx < 8 * dst.Length
    modifies dst
    ensures dst[..] == SetVecBit(old(dst[..]), idx, bit)
  {
    assert Pow2(8) == 256;
    SetBitBound(dst[idx / 8], idx % 8, bit, 8);
    dst[idx / 8] := SetBit(dst[idx / 8], idx % 8, bit);
  }

  /** Copies bits into a vector in place; on request one more bit is written after them,
      equal to the last bit copied. */
  method CopyBits(src: seq<byte>, from: nat, dst: array<byte>, to: nat, numBits: nat, duplicateLastBit: bool)
    requires from + numBits <= 8 * |src| && to + numBits <= 8 * dst.Length
    requires duplicateLastBit ==> numBits > 0 && to + numBits < 8 * dst.Length
    modifies dst
    ensures !duplicateLastBit ==> dst[..] == CopiedBits(src, from, old(dst[..]), to, numBits)
    ensures duplicateLastBit ==>
      dst[..] == CopiedBits(src, from + numBits - 1, CopiedBits(src, from, old(dst[..]), to, numBits), to + numBits, 1)
  {
    hide SetVecBit, VecBit;
    var i := 0;
    while i < numBits
      invariant 0 <= i <= numBits
      invariant dst[..] == CopiedBits(src, from, old(dst[..]), to, i)
    {
      WriteBit(dst, to + i, VecBit(src, from + i));
      i := i + 1;
    }
    if duplicateLastBit {
      ghost var d := dst[..];
      WriteBit(dst, to + numBits, VecBit(src, from + numBits - 1));
      assert CopiedBits(src, from + numBits - 1, d, to + numBits, 0) == d;
    }
  }

  /** Copies whole octets into a vector in place. */
  method CopyOctets(src: seq<byte>, dst: array<byte>, at: nat)
    requires at + |src| <= dst.Length
    modifies dst
    ensures dst[..] == CopiedOctets(src, old(dst[..]), at)
  {
    for i := 0 to |src|
      invariant forall j :: 0 <= j < dst.Length ==>
        dst[j] == if at <= j < at + i then src[j - at] else old(dst[j])
    {
      dst[at + i] := src[i];
    }
  }
}
