/** Account layouts as the programs serialize them, and the raw-offset reader. */
module Layout {
  import opened Borsh
  import opened Accounts
  import TerraToken

  type Render = Address -> Pubkey

  function Bool(b: bool): Bytes {
    [if b then 1 else 0]
  }

  /** Field lists are nested to the right, so that a reader peels them in order. */
  function ParcelFields(p: ParcelConfig): Bytes {
    p.owner + (p.mintAuthority + (EncodeString(p.cadastral) + (FixedFields(p) + ScoreFields(p))))
  }

  function FixedFields(p: ParcelConfig): (bs: Bytes)
    ensures |bs| == 61
  {
    ToLe(p.areaHa, 4) + ([p.landClass] + (Bool(p.kycVerified) + ([p.kycMethod] + (ToLe(p.lastCertEpoch, 8) + (
    ToLe(p.certCount, 2) + ([p.ndviSubmissions] + ([p.dormantSeasons] + (p.egissHash + ([p.riskFlag] + (
    ToLe(FromInt64(p.registeredAt), 8) + [p.bump]))))))))))
  }

  function ScoreFields(p: ParcelConfig): Bytes {
    [p.aiScore] + ([p.collateralGrade] + ToLe(p.recommendedLtv, 2))
  }

  function EncumbranceFields(e: Encumbrance, render: Render): Bytes {
    render(e.parcelPda) + (e.lender + (ToLe(e.amount, 8) + (e.notarySigHash + (e.notaryCertHash + (e.egissHash + (
    ToLe(FromInt64(e.registeredAt), 8) + (ToLe(FromInt64(e.releasedAt), 8) + ([e.status] + [e.bump]))))))))
  }

  function IndexFields(i: LienIndex, render: Render): Bytes {
    render(i.parcelPda) + ([i.activeLienCount] + (ToLe(i.totalLienCount, 2) + [i.bump]))
  }

  /** Where each field of an encumbrance account sits, behind the discriminator. */
  lemma EncumbranceOffsets(e: Encumbrance, render: Render, disc: Bytes8, pad: Bytes)
    ensures var data := disc + EncumbranceFields(e, render) + pad;
            && |data| >= 194
            && data[8..40] == render(e.parcelPda) && data[40..72] == e.lender && data[72..80] == ToLe(e.amount, 8)
            && data[80..112] == e.notarySigHash && data[112..144] == e.notaryCertHash && data[144..176] == e.egissHash
            && data[176..184] == ToLe(FromInt64(e.registeredAt), 8) && data[184..192] == ToLe(FromInt64(e.releasedAt), 8)
            && data[192] == e.status && data[193] == e.bump
  {
    var data := disc + EncumbranceFields(e, render) + pad;
    var d := data[8..];
    assert d == EncumbranceFields(e, render) + pad;
    assert d[..32] == render(e.parcelPda) && d[32..64] == e.lender && d[64..72] == ToLe(e.amount, 8);
    assert d[72..104] == e.notarySigHash && d[104..136] == e.notaryCertHash && d[136..168] == e.egissHash;
    assert d[168..176] == ToLe(FromInt64(e.registeredAt), 8) && d[176..184] == ToLe(FromInt64(e.releasedAt), 8);
    assert d[184] == e.status && d[185] == e.bump;
  }

  /** The same for a lien index. */
  lemma IndexOffsets(i: LienIndex, render: Render, disc: Bytes8, pad: Bytes)
    ensures var data := disc + IndexFields(i, render) + pad;
            && |data| >= 44
            && data[8..40] == render(i.parcelPda) && data[40] == i.activeLienCount
            && data[41..43] == ToLe(i.totalLienCount, 2) && data[43] == i.bump
  {
    var d := (disc + IndexFields(i, render) + pad)[8..];
    assert d == IndexFields(i, render) + pad;
    assert d[..32] == render(i.parcelPda) && d[32] == i.activeLienCount;
    assert d[33..35] == ToLe(i.totalLienCount, 2) && d[35] == i.bump;
  }

  /** The same for a parcel; n is the length of its cadastral string. */
  lemma ParcelOffsets(p: ParcelConfig, disc: Bytes8, pad: Bytes, n: nat)
    requires n == |p.cadastral|
    ensures var data := disc + ParcelFields(p) + pad;
            && |data| >= 141 + n
            && data[8..40] == p.owner && data[40..72] == p.mintAuthority && data[76..76 + n] == p.cadastral
            && data[76 + n..80 + n] == ToLe(p.areaHa, 4) && data[80 + n] == p.landClass
            && data[81 + n] == (if p.kycVerified then 1 else 0) && data[82 + n] == p.kycMethod
            && data[83 + n..91 + n] == ToLe(p.lastCertEpoch, 8) && data[91 + n..93 + n] == ToLe(p.certCount, 2)
            && data[93 + n] == p.ndviSubmissions && data[94 + n] == p.dormantSeasons
            && data[95 + n..127 + n] == p.egissHash && data[127 + n] == p.riskFlag
            && data[128 + n..136 + n] == ToLe(FromInt64(p.registeredAt), 8) && data[136 + n] == p.bump
            && data[137 + n] == p.aiScore && data[138 + n] == p.collateralGrade
            && data[139 + n..141 + n] == ToLe(p.recommendedLtv, 2)
  {
    var data := disc + ParcelFields(p) + pad;
    HeadOffsets(p, disc, pad, n);
    FixedOffsets(p);
    var o, f, g := 76 + n, FixedFields(p), ScoreFields(p);
    Behind(data, o, f, g + pad);
    Behind(data, o + 61, g, pad);
    Within(data, o, f, 0, 4);
    Within(data, o, f, 7, 15);
    Within(data, o, f, 15, 17);
    Within(data, o, f, 19, 51);
    Within(data, o, f, 52, 60);
    assert g[2..4] == ToLe(p.recommendedLtv, 2);
    Within(data, o + 61, g, 2, 4);
  }

  lemma HeadOffsets(p: ParcelConfig, disc: Bytes8, pad: Bytes, n: nat)
    requires n == |p.cadastral|
    ensures var data := disc + ParcelFields(p) + pad;
            && |data| == 141 + n + |pad|
            && data[8..40] == p.owner && data[40..72] == p.mintAuthority && data[76..76 + n] == p.cadastral
            && data[76 + n..] == FixedFields(p) + (ScoreFields(p) + pad)
  {
    var data, r := disc + ParcelFields(p) + pad, FixedFields(p) + (ScoreFields(p) + pad);
    var r2 := ToLe(n, 4) + (p.cadastral + r);
    assert data == disc + (p.owner + (p.mintAuthority + r2));
    Behind(data, 0, disc, p.owner + (p.mintAuthority + r2));
    Behind(data, 8, p.owner, p.mintAuthority + r2);
    Behind(data, 40, p.mintAuthority, r2);
    Behind(data, 72, ToLe(n, 4), p.cadastral + r);
    Behind(data, 76, p.cadastral, r);
  }

  lemma FixedOffsets(p: ParcelConfig)
    ensures var f := FixedFields(p);
            && f[..4] == ToLe(p.areaHa, 4) && f[4] == p.landClass && f[5] == (if p.kycVerified then 1 else 0)
            && f[6] == p.kycMethod && f[7..15] == ToLe(p.lastCertEpoch, 8) && f[15..17] == ToLe(p.certCount, 2)
            && f[17] == p.ndviSubmissions && f[18] == p.dormantSeasons && f[19..51] == p.egissHash
            && f[51] == p.riskFlag && f[52..60] == ToLe(FromInt64(p.registeredAt), 8) && f[60] == p.bump
  {
    var f := FixedFields(p);
    var tail := ToLe(FromInt64(p.registeredAt), 8) + [p.bump];
    var half := [p.ndviSubmissions] + ([p.dormantSeasons] + (p.egissHash + ([p.riskFlag] + tail)));
    FrontOffsets(ToLe(p.areaHa, 4), [p.landClass], Bool(p.kycVerified), [p.kycMethod], ToLe(p.lastCertEpoch, 8),
                 ToLe(p.certCount, 2), half, f);
    HalfOffsets([p.ndviSubmissions], [p.dormantSeasons], p.egissHash, [p.riskFlag], tail, half);
    assert f[19..51] == f[17..][2..34] && f[51] == f[17..][34];
    assert f[52..60] == f[17..][35..][..8] && f[60] == f[17..][35..][8];
  }

  lemma FrontOffsets(a: Bytes, l: Bytes, k: Bytes, m: Bytes, e: Bytes, c: Bytes, half: Bytes, f: Bytes)
    requires |a| == 4 && |l| == |k| == |m| == 1 && |e| == 8 && |c| == 2
    requires f == a + (l + (k + (m + (e + (c + half)))))
    ensures |f| == 17 + |half|
    ensures f[..4] == a && f[4] == l[0] && f[5] == k[0] && f[6] == m[0] && f[7..15] == e && f[15..17] == c
    ensures f[17..] == half
  {
    assert f[4..] == l + (k + (m + (e + (c + half))));
    assert f[4..][1..] == f[5..] == k + (m + (e + (c + half)));
    assert f[5..][1..] == f[6..] == m + (e + (c + half));
    assert f[6..][1..] == f[7..] == e + (c + half);
    assert f[7..][..8] == f[7..15] && f[7..][8..] == f[15..] == c + half;
    assert f[15..][..2] == f[15..17] && f[15..][2..] == f[17..];
  }

  lemma HalfOffsets(a: Bytes, b: Bytes, c: Bytes32, d: Bytes, tail: Bytes, half: Bytes)
    requires |a| == |b| == |d| == 1 && half == a + (b + (c + (d + tail)))
    ensures |half| == 35 + |tail|
    ensures half[0] == a[0] && half[1] == b[0] && half[2..34] == c && half[34] == d[0] && half[35..] == tail
  {
    assert half[1..] == b + (c + (d + tail));
    assert half[1..][1..] == half[2..] == c + (d + tail);
    assert half[2..][..32] == c && half[2..][32..] == half[34..] == d + tail;
    assert half[34..][1..] == half[35..] == tail;
  }

  /** Two readings of the same bytes agree on a leading field of equal length,
      and go on to read the same rest. */
  lemma Peel(data: Bytes, a: Bytes, x: Bytes, b: Bytes, y: Bytes)
    requires a + x <= data && b + y <= data && |a| == |b|
    ensures a == b && x <= data[|a|..] && y <= data[|a|..]
  {
    assert a == (a + x)[..|a|] == data[..|a|];
    assert b == (b + y)[..|b|] == data[..|b|];
    assert x == (a + x)[|a|..];
    assert y == (b + y)[|b|..];
  }

  lemma PeelByte(data: Bytes, a: Byte, b: Byte, x: Bytes, y: Bytes)
    requires [a] + x <= data && [b] + y <= data
    ensures a == b && x <= data[1..] && y <= data[1..]
  {
    Peel(data, [a], x, [b], y);
    assert [a][0] == [b][0];
  }

  lemma LastByte(data: Bytes, a: Byte, b: Byte)
    requires [a] <= data && [b] <= data
    ensures a == b
  {
    assert [a][0] == data[0] == [b][0];
  }

  lemma PeelNumber(data: Bytes, m: nat, n: nat, width: nat, x: Bytes, y: Bytes)
    requires ToLe(m, width) + x <= data && ToLe(n, width) + y <= data
    requires m < Pow256(width) && n < Pow256(width)
    ensures m == n && x <= data[width..] && y <= data[width..]
  {
    Peel(data, ToLe(m, width), x, ToLe(n, width), y);
    FromLeToLe(m, width);
    FromLeToLe(n, width);
  }

  lemma PeelSigned(data: Bytes, i: I64, j: I64, x: Bytes, y: Bytes)
    requires ToLe(FromInt64(i), 8) + x <= data && ToLe(FromInt64(j), 8) + y <= data
    ensures i == j && x <= data[8..] && y <= data[8..]
  {
    WidthsFit();
    PeelNumber(data, FromInt64(i), FromInt64(j), 8, x, y);
  }

  lemma PeelString(data: Bytes, s: Text, t: Text, x: Bytes, y: Bytes)
    requires EncodeString(s) + x <= data && EncodeString(t) + y <= data
    ensures s == t && x <= data[4 + |s|..] && y <= data[4 + |s|..]
  {
    WidthsFit();
    assert EncodeString(s) + x == ToLe(|s|, 4) + (s + x);
    assert EncodeString(t) + y == ToLe(|t|, 4) + (t + y);
    PeelNumber(data, |s|, |t|, 4, s + x, t + y);
    Peel(data[4..], s, x, t, y);
    assert data[4..][|s|..] == data[4 + |s|..];
  }

  // ------------------------------------------------------- the raw reader

  /** An account as seasonal_check sees it: its owning program and its bytes. */
  datatype RawAccount = RawAccount(ownedByLienRegistry: bool, data: Bytes)

  const ACTIVE_LIEN_OFFSET := 8 + 32

  function ResolveRaw(account: Option<RawAccount>): bool {
    match account
    case None => false
    case Some(a) =>
      a.ownedByLienRegistry && |a.data| >= ACTIVE_LIEN_OFFSET + 1 && a.data[ACTIVE_LIEN_OFFSET] > 0
  }

  /** What the chain holds at an address, as bytes. */
  function Raw(s: State, a: Address, disc: Bytes8, pad: Bytes, render: Render): RawAccount {
    if a in s.indexes then RawAccount(true, disc + IndexFields(s.indexes[a], render) + pad)
    else if a in s.encumbrances then RawAccount(true, disc + EncumbranceFields(s.encumbrances[a], render) + pad)
    else if a in s.parcels then RawAccount(false, disc + ParcelFields(s.parcels[a]) + pad)
    else RawAccount(false, pad)
  }

  /** The byte-40 reader answers what ResolveActiveLien says, in any state and
      for any account: on an index exactly whether its count is positive. */
  lemma RawReaderAgrees(s: State, a: Address, disc: Bytes8, pad: Bytes, render: Render)
    ensures ResolveRaw(Some(Raw(s, a, disc, pad, render))) == TerraToken.ResolveActiveLien(s, Some(a))
    ensures a in s.indexes ==>
              (ResolveRaw(Some(Raw(s, a, disc, pad, render))) <==> s.indexes[a].activeLienCount > 0)
  {
    var data := Raw(s, a, disc, pad, render).data;
    if a in s.indexes {
      assert data[8..][32..][0] == s.indexes[a].activeLienCount;
    } else if a in s.encumbrances {
      var e := s.encumbrances[a];
      assert data[8 + 32..8 + 32 + 32] == e.lender;
      assert data[8 + 32] == e.lender[0];
    }
  }
}
