/** Borsh primitives (borsh.io, section "Specification"): little-endian integers and
    u32 length-prefixed strings, and the bounds-checked decoders of the Go indexer. */
module Borsh {
  type Byte = b: int | 0 <= b < 0x100
  type U8 = n: int | 0 <= n < 0x100
  type U16 = n: int | 0 <= n < 0x1_0000
  type U32 = n: int | 0 <= n < 0x1_0000_0000
  type U64 = n: int | 0 <= n < 0x1_0000_0000_0000_0000
  type I64 = n: int | -0x8000_0000_0000_0000 <= n < 0x8000_0000_0000_0000

  type Bytes = seq<Byte>
  type Bytes8 = s: Bytes | |s| == 8 witness [0, 0, 0, 0, 0, 0, 0, 0]
  type Bytes32 = s: Bytes | |s| == 32 witness seq(32, _ => 0)
  type Pubkey = Bytes32
  /** A string Borsh can encode: its byte length fits the u32 prefix. */
  type Text = s: Bytes | |s| < 0x1_0000_0000 witness []

  datatype Option<+T> = None | Some(value: T)

  // ---------------------------------------------------------------- integers

  function Pow256(width: nat): (p: nat)
    ensures p > 0
  {
    if width == 0 then 1 else 256 * Pow256(width - 1)
  }

  function ToLe(n: nat, width: nat): (bs: Bytes)
    ensures |bs| == width
  {
    if width == 0 then [] else [n % 256] + ToLe(n / 256, width - 1)
  }

  function FromLe(bs: Bytes): nat {
    if bs == [] then 0 else bs[0] + 256 * FromLe(bs[1..])
  }

  lemma {:induction false} FromLeBound(bs: Bytes)
    ensures FromLe(bs) < Pow256(|bs|)
  {
    if bs != [] {
      FromLeBound(bs[1..]);
    }
  }

  /** Reading back a little-endian integer that fits its width gives the integer. */
  lemma {:induction false} FromLeToLe(n: nat, width: nat)
    requires n < Pow256(width)
    ensures FromLe(ToLe(n, width)) == n
  {
    if width > 0 {
      FromLeToLe(n / 256, width - 1);
      assert ToLe(n, width)[1..] == ToLe(n / 256, width - 1);
    }
  }

  /** Conversely, every byte string is the encoding of the integer it reads as. */
  lemma {:induction false} ToLeFromLe(bs: Bytes)
    ensures ToLe(FromLe(bs), |bs|) == bs
  {
    if bs != [] {
      ToLeFromLe(bs[1..]);
      assert FromLe(bs) % 256 == bs[0] && FromLe(bs) / 256 == FromLe(bs[1..]);
    }
  }

  /** Little-endian: the i-th byte is the i-th digit in base 256, the lowest first. */
  lemma {:induction false} LittleEndian(n: nat, width: nat, i: nat)
    requires i < width
    ensures ToLe(n, width)[i] as int == n / Pow256(i) % 256
  {
    if i > 0 {
      LittleEndian(n / 256, width - 1, i - 1);
      QuotientOfQuotient(n, i - 1);
    }
  }

  lemma QuotientOfQuotient(n: nat, k: nat)
    ensures n / 256 / Pow256(k) == n / Pow256(k + 1)
  {
    var p := Pow256(k);
    var q, r := n / 256 / p, n / 256 % p;
    assert n / 256 == p * q + r;
    assert n == 256 * (p * q + r) + n % 256;
    assert n == (256 * p) * q + (256 * r + n % 256);
    QuotientIs(n, 256 * p, q, 256 * r + n % 256);
  }

  lemma QuotientIs(n: nat, d: nat, q: nat, r: nat)
    requires d > 0 && n == d * q + r && r < d
    ensures n / d == q
  {
    assert d * (n / d) + n % d == n;
    OneQuotient(d, n / d, n % d, q, r);
  }

  lemma OneQuotient(d: nat, q: nat, r: nat, q': nat, r': nat)
    requires r < d && r' < d && d * q + r == d * q' + r'
    ensures q == q'
  {
    if q < q' {
      AtLeastOnce(d, q, q');
    } else if q' < q {
      AtLeastOnce(d, q', q);
    }
  }

  lemma AtLeastOnce(d: nat, q: nat, q': nat)
    requires q < q'
    ensures d * q + d <= d * q'
  {
    assert d * (q' - q - 1) >= 0;
  }

  lemma WidthsFit()
    ensures Pow256(1) == 0x100
    ensures Pow256(2) == 0x1_0000
    ensures Pow256(4) == 0x1_0000_0000
    ensures Pow256(8) == 0x1_0000_0000_0000_0000
  {
    assert Pow256(3) == 0x100_0000;
    assert Pow256(5) == 0x100_0000_0000;
    assert Pow256(6) == 0x1_0000_0000_0000;
    assert Pow256(7) == 0x100_0000_0000_0000;
  }

  /** Go's `int64(u)` and `getBigInt64`: reinterpretation in two's complement. */
  function ToInt64(u: U64): I64 {
    if u < 0x8000_0000_0000_0000 then u else u - 0x1_0000_0000_0000_0000
  }

  function FromInt64(i: I64): U64 {
    if i < 0 then i + 0x1_0000_0000_0000_0000 else i
  }

  function EncodeString(s: Text): (bs: Bytes)
    ensures |bs| == 4 + |s|
  {
    ToLe(|s|, 4) + s
  }

  // ------------------------------------------------------------------ slices

  /** A field and what is behind it, wherever the two sit. */
  lemma Behind(data: Bytes, o: nat, field: Bytes, rest: Bytes)
    requires o <= |data| && data[o..] == field + rest
    ensures o + |field| <= |data| && data[o..o + |field|] == field && data[o + |field|..] == rest
  {
    assert data[o..o + |field|] == data[o..][..|field|];
    assert data[o + |field|..] == data[o..][|field|..];
  }

  /** A slice of a field is a slice of the data. */
  lemma Within(data: Bytes, o: nat, field: Bytes, i: nat, j: nat)
    requires o + |field| <= |data| && data[o..o + |field|] == field && i <= j <= |field|
    ensures data[o + i..o + j] == field[i..j]
    ensures forall k :: 0 <= k < |field| ==> data[o + k] == field[k]
  {
    forall k | 0 <= k < |field|
      ensures data[o + k] == field[k]
    {
      assert data[o..o + |field|][k] == data[o + k];
    }
    forall k | 0 <= k < j - i
      ensures data[o + i..o + j][k] == field[i..j][k]
    {
      assert data[o + (i + k)] == field[i + k];
    }
  }

  // ---------------------------------------------------------------- decoders

  /** A Go decoder's triple: a value and the next offset, or an error and the
      offset the decoder had reached. */
  datatype Decoded<+T> = Decoded(value: T, offset: nat) | Short(offset: nat)

  function DecodeString(data: Bytes, offset: nat): (r: Decoded<Text>)
    ensures match r
            case Decoded(s, end) => end == offset + 4 + |s| <= |data| && data[offset..end] == EncodeString(s)
            case Short(end) =>
              if offset + 4 > |data| then end == offset
              else end == offset + 4 && offset + 4 + FromLe(data[offset..offset + 4]) > |data|
  {
    if offset + 4 > |data| then Short(offset)
    else
      var prefix := data[offset..offset + 4];
      var len := FromLe(prefix);
      FromLeBound(prefix); ToLeFromLe(prefix); WidthsFit();
      if offset + 4 + len > |data| then Short(offset + 4)
      else
        var value := data[offset + 4..offset + 4 + len];
        assert data[offset..offset + 4 + len] == prefix + value;
        Decoded(value, offset + 4 + len)
  }

  function DecodePubkey(data: Bytes, offset: nat): (r: Decoded<Pubkey>)
    ensures match r
            case Decoded(key, end) => end == offset + 32 <= |data| && data[offset..end] == key
            case Short(end) => end == offset && offset + 32 > |data|
  {
    if offset + 32 > |data| then Short(offset)
    else Decoded(data[offset..offset + 32], offset + 32)
  }

  function DecodeU16(data: Bytes, offset: nat): (r: Decoded<U16>)
    ensures match r
            case Decoded(n, end) => end == offset + 2 <= |data| && data[offset..end] == ToLe(n, 2)
            case Short(end) => end == offset && offset + 2 > |data|
  {
    if offset + 2 > |data| then Short(offset)
    else
      FromLeBound(data[offset..offset + 2]); ToLeFromLe(data[offset..offset + 2]); WidthsFit();
      Decoded(FromLe(data[offset..offset + 2]), offset + 2)
  }

  function DecodeU32(data: Bytes, offset: nat): (r: Decoded<U32>)
    ensures match r
            case Decoded(n, end) => end == offset + 4 <= |data| && data[offset..end] == ToLe(n, 4)
            case Short(end) => end == offset && offset + 4 > |data|
  {
    if offset + 4 > |data| then Short(offset)
    else
      FromLeBound(data[offset..offset + 4]); ToLeFromLe(data[offset..offset + 4]); WidthsFit();
      Decoded(FromLe(data[offset..offset + 4]), offset + 4)
  }

  function DecodeU64(data: Bytes, offset: nat): (r: Decoded<U64>)
    ensures match r
            case Decoded(n, end) => end == offset + 8 <= |data| && data[offset..end] == ToLe(n, 8)
            case Short(end) => end == offset && offset + 8 > |data|
  {
    if offset + 8 > |data| then Short(offset)
    else
      FromLeBound(data[offset..offset + 8]); ToLeFromLe(data[offset..offset + 8]); WidthsFit();
      Decoded(FromLe(data[offset..offset + 8]), offset + 8)
  }

  // Each decoder inverts its encoder wherever the encoding sits in the data.

  lemma DecodeStringInverts(pre: Bytes, s: Text, post: Bytes)
    ensures DecodeString(pre + EncodeString(s) + post, |pre|) == Decoded(s, |pre| + 4 + |s|)
  {
    var len := ToLe(|s|, 4);
    var data := pre + EncodeString(s) + post;
    assert data == pre + len + (s + post);
    assert data[|pre|..|pre| + 4] == len;
    WidthsFit();
    FromLeToLe(|s|, 4);
    assert data == (pre + len) + s + post;
    assert data[|pre + len|..|pre + len| + |s|] == s;
  }

  lemma DecodePubkeyInverts(pre: Bytes, k: Pubkey, post: Bytes)
    ensures DecodePubkey(pre + k + post, |pre|) == Decoded(k, |pre| + 32)
  {
    assert (pre + k + post)[|pre|..|pre| + 32] == k;
  }

  lemma DecodeU16Inverts(pre: Bytes, n: U16, post: Bytes)
    ensures DecodeU16(pre + ToLe(n, 2) + post, |pre|) == Decoded(n, |pre| + 2)
  {
    assert (pre + ToLe(n, 2) + post)[|pre|..|pre| + 2] == ToLe(n, 2);
    WidthsFit();
    FromLeToLe(n, 2);
  }

  lemma DecodeU64Inverts(pre: Bytes, n: U64, post: Bytes)
    ensures DecodeU64(pre + ToLe(n, 8) + post, |pre|) == Decoded(n, |pre| + 8)
  {
    assert (pre + ToLe(n, 8) + post)[|pre|..|pre| + 8] == ToLe(n, 8);
    WidthsFit();
    FromLeToLe(n, 8);
  }

  // A decoder that succeeds on a prefix of the data answers the same on all of it.

  lemma DecodeStringStable(data: Bytes, k: nat, offset: nat)
    requires k <= |data| && DecodeString(data[..k], offset).Decoded?
    ensures DecodeString(data, offset) == DecodeString(data[..k], offset)
  {
    var r := DecodeString(data[..k], offset);
    assert data[..k][offset..offset + 4] == data[offset..offset + 4];
    assert data[..k][offset + 4..r.offset] == data[offset + 4..r.offset];
  }

  lemma DecodePubkeyStable(data: Bytes, k: nat, offset: nat)
    requires k <= |data| && DecodePubkey(data[..k], offset).Decoded?
    ensures DecodePubkey(data, offset) == DecodePubkey(data[..k], offset)
  {
    assert data[..k][offset..offset + 32] == data[offset..offset + 32];
  }

  lemma DecodeU16Stable(data: Bytes, k: nat, offset: nat)
    requires k <= |data| && DecodeU16(data[..k], offset).Decoded?
    ensures DecodeU16(data, offset) == DecodeU16(data[..k], offset)
  {
    assert data[..k][offset..offset + 2] == data[offset..offset + 2];
  }
}
