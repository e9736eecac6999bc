/** Fixed-width little-endian integers in byte strings. */
module Bytes {
  import opened Prelude

  type Bytes = seq<Byte>

  function Pow256(k: nat): (p: nat)
    ensures p >= 1
  {
    if k == 0 then 1 else 256 * Pow256(k - 1)
  }

  /** The low `k` bytes of `n`, least significant first. */
  function Little(n: nat, k: nat): (s: Bytes)
    ensures |s| == k
  {
    if k == 0 then [] else [n % 256] + Little(n / 256, k - 1)
  }

  function FromLittle(s: Bytes): nat {
    if s == [] then 0 else s[0] + 256 * FromLittle(s[1..])
  }

  /** The `k`-byte integer at `offset`, if it lies inside the string. */
  function ReadLittle(s: Bytes, offset: nat, k: nat): Option<nat> {
    if offset + k <= |s| then Some(FromLittle(s[offset..offset + k])) else None
  }

  lemma {:induction false} DecodeLittle(n: nat, k: nat)
    requires n < Pow256(k)
    ensures FromLittle(Little(n, k)) == n
  {
    if k > 0 {
      DecodeLittle(n / 256, k - 1);
      assert Little(n, k)[1..] == Little(n / 256, k - 1);
    }
  }

  lemma {:induction false} EncodeLittle(s: Bytes)
    ensures FromLittle(s) < Pow256(|s|)
    ensures Little(FromLittle(s), |s|) == s
  {
    if s != [] {
      EncodeLittle(s[1..]);
      assert s == [s[0]] + s[1..];
    }
  }

  lemma {:induction false} PowerValues()
    ensures Pow256(2) == U16_MAX + 1 && Pow256(4) == U32_MAX + 1 && Pow256(8) == U64_MAX + 1
  {
    assert Pow256(1) == 256 && Pow256(2) == 0x10000 && Pow256(3) == 0x1000000 && Pow256(4) == 0x1_0000_0000;
    assert Pow256(5) == 0x100_0000_0000 && Pow256(6) == 0x1_0000_0000_0000;
    assert Pow256(7) == 0x100_0000_0000_0000;
  }

  /** A value that fits reads back from where it stands. */
  lemma {:induction false} ReadBack(s: Bytes, offset: nat, n: nat, k: nat)
    requires offset + k <= |s| && s[offset..offset + k] == Little(n, k) && n < Pow256(k)
    ensures ReadLittle(s, offset, k) == Some(n)
  {
    DecodeLittle(n, k);
  }

  /** What was read stands there in its only encoding. */
  lemma {:induction false} StandsThere(s: Bytes, offset: nat, n: nat, k: nat)
    requires ReadLittle(s, offset, k) == Some(n)
    ensures s[offset..offset + k] == Little(n, k) && n < Pow256(k)
  {
    EncodeLittle(s[offset..offset + k]);
  }

  /** `s` with the bytes from `offset` on replaced by `x`. */
  function Splice(s: Bytes, offset: nat, x: Bytes): (r: Bytes)
    requires offset + |x| <= |s|
    ensures |r| == |s|
  {
    s[..offset] + x + s[offset + |x|..]
  }

  lemma {:induction false} SpliceInside(s: Bytes, offset: nat, x: Bytes)
    requires offset + |x| <= |s|
    ensures Splice(s, offset, x)[offset..offset + |x|] == x
  {
  }

  lemma {:induction false} SpliceOutside(s: Bytes, offset: nat, x: Bytes, a: nat, b: nat)
    requires offset + |x| <= |s| && a <= b <= |s| && (b <= offset || offset + |x| <= a)
    ensures Splice(s, offset, x)[a..b] == s[a..b]
  {
  }

  /** Stores an integer in a buffer and touches nothing else. */
  method WriteLittle(buffer: array<Byte>, offset: nat, value: nat, k: nat)
    requires offset + k <= buffer.Length
    modifies buffer
    ensures buffer[..] == Splice(old(buffer[..]), offset, Little(value, k))
  {
    var rest := value;
    for i := 0 to k
      invariant buffer[..offset] == old(buffer[..offset]) && buffer[offset + k..] == old(buffer[offset + k..])
      invariant buffer[offset..offset + i] + Little(rest, k - i) == Little(value, k)
    {
      buffer[offset + i] := rest % 256;
      assert buffer[offset..offset + i + 1] == buffer[offset..offset + i] + [rest % 256];
      rest := rest / 256;
    }
    assert buffer[..] == buffer[..offset] + buffer[offset..offset + k] + buffer[offset + k..];
  }

  /** Copies a byte string into a buffer and touches nothing else. */
  method CopyInto(buffer: array<Byte>, offset: nat, source: Bytes)
    requires offset + |source| <= buffer.Length
    modifies buffer
    ensures buffer[..] == Splice(old(buffer[..]), offset, source)
  {
    for i := 0 to |source|
      invariant buffer[..offset] == old(buffer[..offset])
      invariant buffer[offset + i..] == old(buffer[offset + i..])
      invariant buffer[offset..offset + i] == source[..i]
    {
      buffer[offset + i] := source[i];
    }
    assert buffer[..] == buffer[..offset] + buffer[offset..offset + |source|] + buffer[offset + |source|..];
  }
}
