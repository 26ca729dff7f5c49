/** The SDK's hand-written account deserializers. */
module SdkAccounts {
  import opened Borsh
  import opened Accounts
  import opened Layout

  const DISCRIMINATOR_SIZE := 8

  /** The SDK's views. Addresses are their 32 bytes. */
  datatype LienIndexData = LienIndexData(parcelPda: Pubkey, activeLienCount: U8, totalLienCount: U16, bump: U8)

  datatype EncumbranceStatus = Active | Released | Disputed

  datatype EncumbranceData = EncumbranceData(
    parcelPda: Pubkey, lender: Pubkey, amount: U64, notarySigHash: Bytes32, notaryCertHash: Bytes32,
    egissHash: Bytes32, registeredAt: I64, releasedAt: I64, status: EncumbranceStatus, bump: U8)

  datatype ParcelData = ParcelData(
    owner: Pubkey, mintAuthority: Pubkey, cadastral: Text, areaHa: U32, landClass: U8, kycVerified: bool,
    kycMethod: U8, lastCertEpoch: U64, certCount: U16, ndviSubmissions: U8, dormantSeasons: U8,
    egissHash: Bytes32, riskFlag: U8, registeredAt: I64, bump: U8)

  /** `ENCUMBRANCE_STATUS_MAP[b] ?? 'Active'`. */
  function StatusOf(b: U8): EncumbranceStatus {
    if b == 1 then Released else if b == 2 then Disputed else Active
  }

  /** The SDK's map agrees with the program's codes: 0 active, 1 released, 2
      disputed; it shows any other code as active. */
  lemma StatusCodes(b: U8)
    ensures StatusOf(b) == Active <==> b == STATUS_ACTIVE || b > 2
    ensures StatusOf(b) == Released <==> b == STATUS_RELEASED
    ensures StatusOf(b) == Disputed <==> b == 2
  {
  }

  // What each account reads as.

  function IndexView(i: LienIndex, render: Render): LienIndexData {
    LienIndexData(render(i.parcelPda), i.activeLienCount, i.totalLienCount, i.bump)
  }

  function EncumbranceView(e: Encumbrance, render: Render): EncumbranceData {
    EncumbranceData(render(e.parcelPda), e.lender, e.amount, e.notarySigHash, e.notaryCertHash, e.egissHash,
                    e.registeredAt, e.releasedAt, StatusOf(e.status), e.bump)
  }

  function ParcelView(p: ParcelConfig): ParcelData {
    ParcelData(p.owner, p.mintAuthority, p.cadastral, p.areaHa, p.landClass, p.kycVerified, p.kycMethod,
               p.lastCertEpoch, p.certCount, p.ndviSubmissions, p.dormantSeasons, p.egissHash, p.riskFlag,
               p.registeredAt, p.bump)
  }

  // The bytes a view stands for; the raw byte behind a status or a flag is given.

  function IndexBytes(v: LienIndexData): Bytes {
    v.parcelPda + ([v.activeLienCount] + (ToLe(v.totalLienCount, 2) + [v.bump]))
  }

  function EncumbranceBytes(v: EncumbranceData, status: U8): Bytes {
    v.parcelPda + (v.lender + (ToLe(v.amount, 8) + (v.notarySigHash + (v.notaryCertHash + (v.egissHash + (
    ToLe(FromInt64(v.registeredAt), 8) + (ToLe(FromInt64(v.releasedAt), 8) + ([status] + [v.bump]))))))))
  }

  function ParcelBytes(v: ParcelData, kyc: U8): Bytes {
    v.owner + (v.mintAuthority + (EncodeString(v.cadastral) + AfterCadastral(v, kyc)))
  }

  /** The fields whose offsets the cadastral string shifts. */
  function AfterCadastral(v: ParcelData, kyc: U8): (bs: Bytes)
    ensures |bs| == 61
  {
    ToLe(v.areaHa, 4) + ([v.landClass] + ([kyc] + ([v.kycMethod] + MintFields(v))))
  }

  function MintFields(v: ParcelData): (bs: Bytes)
    ensures |bs| == 54
  {
    ToLe(v.lastCertEpoch, 8) + (ToLe(v.certCount, 2) + Counters(v))
  }

  function Counters(v: ParcelData): (bs: Bytes)
    ensures |bs| == 44
  {
    [v.ndviSubmissions] + ([v.dormantSeasons] + (v.egissHash + ([v.riskFlag] + (
    ToLe(FromInt64(v.registeredAt), 8) + [v.bump]))))
  }

  // ------------------------------------------------------- the readers

  function ReadNumber(data: Bytes, off: nat, width: nat): (n: nat)
    requires off + width <= |data|
    ensures n < Pow256(width) && ToLe(n, width) == data[off..off + width]
  {
    FromLeBound(data[off..off + width]);
    ToLeFromLe(data[off..off + width]);
    FromLe(data[off..off + width])
  }

  /** None stands for a read past the end: a RangeError or an undefined field.
      Otherwise the result is the view whose bytes follow the discriminator. */
  method DeserializeLienIndex(data: Bytes) returns (r: Option<LienIndexData>)
    ensures r.Some? <==> |data| >= DISCRIMINATOR_SIZE + 36
    ensures r.Some? ==> IndexBytes(r.value) <= data[DISCRIMINATOR_SIZE..]
    ensures forall i: LienIndex, render: Render, disc: Bytes8, rest: Bytes ::
              data == disc + IndexFields(i, render) + rest ==> r == Some(IndexView(i, render))
  {
    if |data| < DISCRIMINATOR_SIZE + 36 { return None; }
    WidthsFit();
    var off := DISCRIMINATOR_SIZE;
    var parcelPda := data[off..off + 32]; off := off + 32;
    var activeLienCount := data[off]; off := off + 1;
    var totalLienCount := ReadNumber(data, off, 2); off := off + 2;
    var bump := data[off];
    var v := LienIndexData(parcelPda, activeLienCount, totalLienCount, bump);
    assert IndexBytes(v) == data[8..40] + (data[40..41] + (data[41..43] + data[43..44])) == data[8..44];
    forall i: LienIndex, render: Render, disc: Bytes8, rest: Bytes | data == disc + IndexFields(i, render) + rest
      ensures v == IndexView(i, render)
    {
      IndexReadsBack(i, render, disc, rest, v);
    }
    return Some(v);
  }

  method DeserializeEncumbrance(data: Bytes) returns (r: Option<EncumbranceData>)
    ensures r.Some? <==> |data| >= DISCRIMINATOR_SIZE + 186
    ensures r.Some? ==> EncumbranceBytes(r.value, data[192]) <= data[DISCRIMINATOR_SIZE..]
                        && r.value.status == StatusOf(data[192])
    ensures forall e: Encumbrance, render: Render, disc: Bytes8, rest: Bytes ::
              data == disc + EncumbranceFields(e, render) + rest ==> r == Some(EncumbranceView(e, render))
  {
    if |data| < DISCRIMINATOR_SIZE + 186 { return None; }
    WidthsFit();
    var off := DISCRIMINATOR_SIZE;
    var parcelPda := data[off..off + 32]; off := off + 32;
    var lender := data[off..off + 32]; off := off + 32;
    var amount := ReadNumber(data, off, 8); off := off + 8;
    var notarySigHash := data[off..off + 32]; off := off + 32;
    var notaryCertHash := data[off..off + 32]; off := off + 32;
    var egissHash := data[off..off + 32]; off := off + 32;
    var registeredAt := ToInt64(ReadNumber(data, off, 8)); off := off + 8;
    var releasedAt := ToInt64(ReadNumber(data, off, 8)); off := off + 8;
    var status := StatusOf(data[off]); off := off + 1;
    var bump := data[off];
    var v := EncumbranceData(parcelPda, lender, amount, notarySigHash, notaryCertHash, egissHash,
                             registeredAt, releasedAt, status, bump);
    EncumbranceRead(v, data);
    forall e: Encumbrance, render: Render, disc: Bytes8, rest: Bytes | data == disc + EncumbranceFields(e, render) + rest
      ensures v == EncumbranceView(e, render)
    {
      EncumbranceReadsBack(e, render, disc, rest, v, data[192]);
    }
    return Some(v);
  }

  lemma EncumbranceRead(v: EncumbranceData, data: Bytes)
    requires |data| >= 194
    requires v.parcelPda == data[8..40] && v.lender == data[40..72] && ToLe(v.amount, 8) == data[72..80]
    requires v.notarySigHash == data[80..112] && v.notaryCertHash == data[112..144] && v.egissHash == data[144..176]
    requires ToLe(FromInt64(v.registeredAt), 8) == data[176..184]
    requires ToLe(FromInt64(v.releasedAt), 8) == data[184..192] && v.bump == data[193]
    ensures EncumbranceBytes(v, data[192]) <= data[8..]
  {
    var e := [data[192]] + [v.bump];
    assert e == data[192..194];
    var d := Joined(data, 184, 192, 194, ToLe(FromInt64(v.releasedAt), 8), e);
    var c := Joined(data, 176, 184, 194, ToLe(FromInt64(v.registeredAt), 8), d);
    var b3 := Joined(data, 144, 176, 194, v.egissHash, c);
    var b2 := Joined(data, 112, 144, 194, v.notaryCertHash, b3);
    var b1 := Joined(data, 80, 112, 194, v.notarySigHash, b2);
    var a3 := Joined(data, 72, 80, 194, ToLe(v.amount, 8), b1);
    var a2 := Joined(data, 40, 72, 194, v.lender, a3);
    var a1 := Joined(data, 8, 40, 194, v.parcelPda, a2);
    assert a1 == data[8..][..186];
  }

  /** A field followed by what comes next, as one slice of the data. */
  lemma Joined(data: Bytes, from: nat, mid: nat, end: nat, field: Bytes, next: Bytes) returns (whole: Bytes)
    requires from <= mid <= end <= |data|
    requires field == data[from..mid] && next == data[mid..end]
    ensures whole == field + next == data[from..end]
  {
    whole := field + next;
  }

  /** Where the kyc byte sits, given the length of the cadastral string. */
  function KycOffset(len: nat): nat {
    DISCRIMINATOR_SIZE + 64 + 4 + len + 5
  }

  /** `readString`: the value and the bytes consumed. */
  function ReadString(data: Bytes, off: nat): (r: Option<(Text, nat)>)
    ensures r.Some? ==> r.value.1 == 4 + |r.value.0| && off + r.value.1 <= |data|
                        && EncodeString(r.value.0) == data[off..off + r.value.1]
  {
    if off + 4 > |data| then None
    else
      var len := ReadNumber(data, off, 4);
      WidthsFit();
      if off + 4 + len > |data| then None
      else
        var s: Text := data[off + 4..off + 4 + len];
        assert data[off..off + 4 + len] == data[off..off + 4] + s;
        Some((s, 4 + len))
  }

  /** No read of the parcel's fields runs past the end of the data. */
  predicate Readable(data: Bytes) {
    var s := ReadString(data, DISCRIMINATOR_SIZE + 64);
    s.Some? && |data| >= DISCRIMINATOR_SIZE + 64 + s.value.1 + 61
  }

  method DeserializeParcelConfig(data: Bytes) returns (r: Option<ParcelData>)
    ensures r.Some? <==> Readable(data)
    ensures r.Some? ==> KycOffset(|r.value.cadastral|) < |data|
                        && var kyc := data[KycOffset(|r.value.cadastral|)];
                           ParcelBytes(r.value, kyc) <= data[DISCRIMINATOR_SIZE..]
                           && (r.value.kycVerified <==> kyc != 0)
    ensures forall p: ParcelConfig, disc: Bytes8, rest: Bytes ::
              data == disc + ParcelFields(p) + rest ==> r == Some(ParcelView(p))
  {
    forall p: ParcelConfig, disc: Bytes8, rest: Bytes | data == disc + ParcelFields(p) + rest
      ensures Readable(data)
    {
      ParcelIsReadable(p, disc, rest);
    }
    if |data| < DISCRIMINATOR_SIZE + 64 { return None; }
    var off := DISCRIMINATOR_SIZE;
    var owner := data[off..off + 32]; off := off + 32;
    var mintAuthority := data[off..off + 32]; off := off + 32;
    var str := ReadString(data, off);
    if str == None { return None; }
    var (cadastral, strSize) := str.value; off := off + strSize;
    if |data| < off + 61 { return None; }
    WidthsFit();
    ghost var start := off;
    var areaHa := ReadNumber(data, off, 4); off := off + 4;
    var landClass := data[off]; off := off + 1;
    var kycVerified := data[off] != 0; off := off + 1;
    var kycMethod := data[off]; off := off + 1;
    var lastCertEpoch := ReadNumber(data, off, 8); off := off + 8;
    var certCount := ReadNumber(data, off, 2); off := off + 2;
    var ndviSubmissions := data[off]; off := off + 1;
    var dormantSeasons := data[off]; off := off + 1;
    var egissHash := data[off..off + 32]; off := off + 32;
    var riskFlag := data[off]; off := off + 1;
    var registeredAt := ToInt64(ReadNumber(data, off, 8)); off := off + 8;
    var bump := data[off];
    var v := ParcelData(owner, mintAuthority, cadastral, areaHa, landClass, kycVerified, kycMethod, lastCertEpoch,
                        certCount, ndviSubmissions, dormantSeasons, egissHash, riskFlag, registeredAt, bump);
    r := Some(v);
    TailRead(v, data, start);
    HeadRead(v, data, start);
    forall p: ParcelConfig, disc: Bytes8, rest: Bytes | data == disc + ParcelFields(p) + rest
      ensures v == ParcelView(p)
    {
      ParcelReadsBack(p, disc, rest, v, data[start + 5]);
    }
  }

  lemma TailRead(v: ParcelData, data: Bytes, o: nat)
    requires o + 61 <= |data|
    requires ToLe(v.areaHa, 4) == data[o..o + 4] && v.landClass == data[o + 4] && v.kycMethod == data[o + 6]
    requires ToLe(v.lastCertEpoch, 8) == data[o + 7..o + 15] && ToLe(v.certCount, 2) == data[o + 15..o + 17]
    requires v.ndviSubmissions == data[o + 17] && v.dormantSeasons == data[o + 18]
    requires v.egissHash == data[o + 19..o + 51] && v.riskFlag == data[o + 51]
    requires ToLe(FromInt64(v.registeredAt), 8) == data[o + 52..o + 60] && v.bump == data[o + 60]
    ensures AfterCadastral(v, data[o + 5]) == data[o..o + 61]
  {
    MintFieldsRead(v, data, o + 7);
    LandFieldsRead(data, o, o + 61, ToLe(v.areaHa, 4), v.landClass, data[o + 5], v.kycMethod, MintFields(v));
  }

  lemma LandFieldsRead(data: Bytes, o: nat, end: nat, area: Bytes, landClass: Byte, kyc: Byte, kycMethod: Byte, rest: Bytes)
    requires o + 7 <= end <= |data|
    requires area == data[o..o + 4] && landClass == data[o + 4] && kyc == data[o + 5] && kycMethod == data[o + 6]
    requires rest == data[o + 7..end]
    ensures area + ([landClass] + ([kyc] + ([kycMethod] + rest))) == data[o..end]
  {
    var e := Joined(data, o + 6, o + 7, end, [kycMethod], rest);
    var d := Joined(data, o + 5, o + 6, end, [kyc], e);
    var c := Joined(data, o + 4, o + 5, end, [landClass], d);
    var b := Joined(data, o, o + 4, end, area, c);
  }

  lemma MintFieldsRead(v: ParcelData, data: Bytes, o: nat)
    requires o + 54 <= |data|
    requires ToLe(v.lastCertEpoch, 8) == data[o..o + 8] && ToLe(v.certCount, 2) == data[o + 8..o + 10]
    requires v.ndviSubmissions == data[o + 10] && v.dormantSeasons == data[o + 11]
    requires v.egissHash == data[o + 12..o + 44] && v.riskFlag == data[o + 44]
    requires ToLe(FromInt64(v.registeredAt), 8) == data[o + 45..o + 53] && v.bump == data[o + 53]
    ensures MintFields(v) == data[o..o + 54]
  {
    CountersRead(v, data, o + 10);
    var g := Joined(data, o + 8, o + 10, o + 54, ToLe(v.certCount, 2), Counters(v));
    var f := Joined(data, o, o + 8, o + 54, ToLe(v.lastCertEpoch, 8), g);
  }

  lemma CountersRead(v: ParcelData, data: Bytes, o: nat)
    requires o + 44 <= |data|
    requires v.ndviSubmissions == data[o] && v.dormantSeasons == data[o + 1]
    requires v.egissHash == data[o + 2..o + 34] && v.riskFlag == data[o + 34]
    requires ToLe(FromInt64(v.registeredAt), 8) == data[o + 35..o + 43] && v.bump == data[o + 43]
    ensures Counters(v) == data[o..o + 44]
  {
    var end := o + 44;
    var l := Joined(data, o + 35, o + 43, end, ToLe(FromInt64(v.registeredAt), 8), [v.bump]);
    var k := Joined(data, o + 34, o + 35, end, [v.riskFlag], l);
    var j := Joined(data, o + 2, o + 34, end, v.egissHash, k);
    var i := Joined(data, o + 1, o + 2, end, [v.dormantSeasons], j);
    var h := Joined(data, o, o + 1, end, [v.ndviSubmissions], i);
  }

  lemma HeadRead(v: ParcelData, data: Bytes, o: nat)
    requires o == 72 + 4 + |v.cadastral| && o + 61 <= |data|
    requires v.owner == data[8..40] && v.mintAuthority == data[40..72] && EncodeString(v.cadastral) == data[72..o]
    requires AfterCadastral(v, data[o + 5]) == data[o..o + 61]
    ensures ParcelBytes(v, data[o + 5]) <= data[8..]
  {
    var c := Joined(data, 72, o, o + 61, EncodeString(v.cadastral), AfterCadastral(v, data[o + 5]));
    var b := Joined(data, 40, 72, o + 61, v.mintAuthority, c);
    var a := Joined(data, 8, 40, o + 61, v.owner, b);
    assert a == data[8..][..o + 61 - 8];
  }

  // ------------------------------------------------- reading back what was written

  /** Any deserialization of a serialized lien index, whatever follows it, is
      that index. */
  lemma IndexReadsBack(i: LienIndex, render: Render, disc: Bytes8, rest: Bytes, v: LienIndexData)
    requires IndexBytes(v) <= (disc + IndexFields(i, render) + rest)[DISCRIMINATOR_SIZE..]
    ensures v == IndexView(i, render)
  {
    WidthsFit();
    var d0 := (disc + IndexFields(i, render) + rest)[DISCRIMINATOR_SIZE..];
    assert IndexFields(i, render) <= d0;
    var x, y := ToLe(i.totalLienCount, 2) + [i.bump], ToLe(v.totalLienCount, 2) + [v.bump];
    Peel(d0, render(i.parcelPda), [i.activeLienCount] + x, v.parcelPda, [v.activeLienCount] + y);
    var d1 := d0[32..];
    PeelByte(d1, i.activeLienCount, v.activeLienCount, x, y);
    var d2 := d1[1..];
    PeelNumber(d2, i.totalLienCount, v.totalLienCount, 2, [i.bump], [v.bump]);
    LastByte(d2[2..], i.bump, v.bump);
  }

  lemma EncumbranceReadsBack(e: Encumbrance, render: Render, disc: Bytes8, rest: Bytes, v: EncumbranceData, status: U8)
    requires EncumbranceBytes(v, status) <= (disc + EncumbranceFields(e, render) + rest)[DISCRIMINATOR_SIZE..]
    requires v.status == StatusOf(status)
    ensures v == EncumbranceView(e, render)
  {
    WidthsFit();
    var d0 := (disc + EncumbranceFields(e, render) + rest)[DISCRIMINATOR_SIZE..];
    assert EncumbranceFields(e, render) <= d0;
    var x8, y8 := [e.status] + [e.bump], [status] + [v.bump];
    var x7, y7 := ToLe(FromInt64(e.releasedAt), 8) + x8, ToLe(FromInt64(v.releasedAt), 8) + y8;
    var x6, y6 := ToLe(FromInt64(e.registeredAt), 8) + x7, ToLe(FromInt64(v.registeredAt), 8) + y7;
    var x5, y5 := e.egissHash + x6, v.egissHash + y6;
    var x4, y4 := e.notaryCertHash + x5, v.notaryCertHash + y5;
    var x3, y3 := e.notarySigHash + x4, v.notarySigHash + y4;
    var x2, y2 := ToLe(e.amount, 8) + x3, ToLe(v.amount, 8) + y3;
    var x1, y1 := e.lender + x2, v.lender + y2;
    Peel(d0, render(e.parcelPda), x1, v.parcelPda, y1);
    var d1 := d0[32..];
    Peel(d1, e.lender, x2, v.lender, y2);
    var d2 := d1[32..];
    PeelNumber(d2, e.amount, v.amount, 8, x3, y3);
    var d3 := d2[8..];
    Peel(d3, e.notarySigHash, x4, v.notarySigHash, y4);
    var d4 := d3[32..];
    Peel(d4, e.notaryCertHash, x5, v.notaryCertHash, y5);
    var d5 := d4[32..];
    Peel(d5, e.egissHash, x6, v.egissHash, y6);
    var d6 := d5[32..];
    PeelSigned(d6, e.registeredAt, v.registeredAt, x7, y7);
    var d7 := d6[8..];
    PeelSigned(d7, e.releasedAt, v.releasedAt, x8, y8);
    var d8 := d7[8..];
    PeelByte(d8, e.status, status, [e.bump], [v.bump]);
    LastByte(d8[1..], e.bump, v.bump);
  }

  lemma ParcelReadsBack(p: ParcelConfig, disc: Bytes8, rest: Bytes, v: ParcelData, kyc: U8)
    requires ParcelBytes(v, kyc) <= (disc + ParcelFields(p) + rest)[DISCRIMINATOR_SIZE..]
    requires v.kycVerified <==> kyc != 0
    ensures v == ParcelView(p)
  {
    var d0 := (disc + ParcelFields(p) + rest)[DISCRIMINATOR_SIZE..];
    assert ParcelFields(p) <= d0;
    var x3, y3 := FixedFields(p) + ScoreFields(p), AfterCadastral(v, kyc);
    var x2, y2 := EncodeString(p.cadastral) + x3, EncodeString(v.cadastral) + y3;
    Peel(d0, p.owner, p.mintAuthority + x2, v.owner, v.mintAuthority + y2);
    var d1 := d0[32..];
    Peel(d1, p.mintAuthority, x2, v.mintAuthority, y2);
    var d2 := d1[32..];
    PeelString(d2, p.cadastral, v.cadastral, x3, y3);
    var d3 := d2[4 + |p.cadastral|..];
    assert FixedFields(p) <= d3;
    FixedReadsBack(p, d3, v, kyc);
  }

  lemma FixedReadsBack(p: ParcelConfig, d0: Bytes, v: ParcelData, kyc: U8)
    requires FixedFields(p) <= d0 && AfterCadastral(v, kyc) <= d0 && (v.kycVerified <==> kyc != 0)
    ensures p.areaHa == v.areaHa && p.landClass == v.landClass && p.kycVerified == v.kycVerified
    ensures p.kycMethod == v.kycMethod && p.lastCertEpoch == v.lastCertEpoch && p.certCount == v.certCount
    ensures p.ndviSubmissions == v.ndviSubmissions && p.dormantSeasons == v.dormantSeasons
    ensures p.egissHash == v.egissHash && p.riskFlag == v.riskFlag && p.registeredAt == v.registeredAt
    ensures p.bump == v.bump
  {
    WidthsFit();
    var x6, y6 := [p.ndviSubmissions] + ([p.dormantSeasons] + (p.egissHash + ([p.riskFlag] + (
                    ToLe(FromInt64(p.registeredAt), 8) + [p.bump])))), Counters(v);
    var x5, y5 := ToLe(p.certCount, 2) + x6, ToLe(v.certCount, 2) + y6;
    var x4, y4 := ToLe(p.lastCertEpoch, 8) + x5, ToLe(v.lastCertEpoch, 8) + y5;
    var x3, y3 := [p.kycMethod] + x4, [v.kycMethod] + y4;
    var x2, y2 := Bool(p.kycVerified) + x3, [kyc] + y3;
    PeelNumber(d0, p.areaHa, v.areaHa, 4, [p.landClass] + x2, [v.landClass] + y2);
    var d1 := d0[4..];
    PeelByte(d1, p.landClass, v.landClass, x2, y2);
    var d2 := d1[1..];
    PeelByte(d2, if p.kycVerified then 1 else 0, kyc, x3, y3);
    var d3 := d2[1..];
    PeelByte(d3, p.kycMethod, v.kycMethod, x4, y4);
    var d4 := d3[1..];
    PeelNumber(d4, p.lastCertEpoch, v.lastCertEpoch, 8, x5, y5);
    var d5 := d4[8..];
    PeelNumber(d5, p.certCount, v.certCount, 2, x6, y6);
    LastFieldsReadBack(p, d5[2..], v);
  }

  lemma LastFieldsReadBack(p: ParcelConfig, d0: Bytes, v: ParcelData)
    requires [p.ndviSubmissions] + ([p.dormantSeasons] + (p.egissHash + ([p.riskFlag] + (
               ToLe(FromInt64(p.registeredAt), 8) + [p.bump])))) <= d0
    requires Counters(v) <= d0
    ensures p.ndviSubmissions == v.ndviSubmissions && p.dormantSeasons == v.dormantSeasons
    ensures p.egissHash == v.egissHash && p.riskFlag == v.riskFlag && p.registeredAt == v.registeredAt
    ensures p.bump == v.bump
  {
    var x4, y4 := ToLe(FromInt64(p.registeredAt), 8) + [p.bump], ToLe(FromInt64(v.registeredAt), 8) + [v.bump];
    var x3, y3 := [p.riskFlag] + x4, [v.riskFlag] + y4;
    var x2, y2 := p.egissHash + x3, v.egissHash + y3;
    PeelByte(d0, p.ndviSubmissions, v.ndviSubmissions, [p.dormantSeasons] + x2, [v.dormantSeasons] + y2);
    var d1 := d0[1..];
    PeelByte(d1, p.dormantSeasons, v.dormantSeasons, x2, y2);
    var d2 := d1[1..];
    Peel(d2, p.egissHash, x3, v.egissHash, y3);
    var d3 := d2[32..];
    PeelByte(d3, p.riskFlag, v.riskFlag, x4, y4);
    var d4 := d3[1..];
    PeelSigned(d4, p.registeredAt, v.registeredAt, [p.bump], [v.bump]);
    LastByte(d4[8..], p.bump, v.bump);
  }

  /** On any bytes the SDK can read as a lien index, the program's byte-40 reader
      answers exactly whether the count the SDK reads is positive. */
  lemma RawReaderMatchesDeserializer(data: Bytes, v: LienIndexData)
    requires |data| >= DISCRIMINATOR_SIZE + 36 && IndexBytes(v) <= data[DISCRIMINATOR_SIZE..]
    ensures ResolveRaw(Some(RawAccount(true, data))) <==> v.activeLienCount > 0
  {
    assert IndexBytes(v)[32] == v.activeLienCount;
    assert data[DISCRIMINATOR_SIZE..][32] == data[40];
  }

  /** A serialized parcel is long enough for every read, however long its
      cadastral string is. */
  lemma ParcelIsReadable(p: ParcelConfig, disc: Bytes8, rest: Bytes)
    ensures Readable(disc + ParcelFields(p) + rest)
  {
    var data := disc + ParcelFields(p) + rest;
    assert data[72..76] == ToLe(|p.cadastral|, 4);
    WidthsFit();
    FromLeToLe(|p.cadastral|, 4);
    assert data[76..76 + |p.cadastral|] == p.cadastral;
  }

  // ------------------------------------------------- which bytes a reading shows

  /** Which bytes of the account each field of an encumbrance's reading shows. */
  lemma EncumbranceReadAt(v: EncumbranceData, status: U8, data: Bytes)
    requires |data| >= 8 && EncumbranceBytes(v, status) <= data[8..]
    ensures |data| >= 194
    ensures v.parcelPda == data[8..40] && v.lender == data[40..72] && FromLe(data[72..80]) == v.amount
    ensures v.notarySigHash == data[80..112] && v.notaryCertHash == data[112..144] && v.egissHash == data[144..176]
    ensures FromLe(data[176..184]) == FromInt64(v.registeredAt) && FromLe(data[184..192]) == FromInt64(v.releasedAt)
    ensures status == data[192] && v.bump == data[193]
  {
    WidthsFit();
    var rest := data[8..][|EncumbranceBytes(v, status)|..];
    var r9 := [status] + ([v.bump] + rest);
    var r8 := ToLe(FromInt64(v.releasedAt), 8) + r9;
    var r7 := ToLe(FromInt64(v.registeredAt), 8) + r8;
    var r6 := v.egissHash + r7;
    var r5 := v.notaryCertHash + r6;
    var r4 := v.notarySigHash + r5;
    var r3 := ToLe(v.amount, 8) + r4;
    assert data[8..] == v.parcelPda + (v.lender + r3);
    Behind(data, 8, v.parcelPda, v.lender + r3);
    Behind(data, 40, v.lender, r3);
    Behind(data, 72, ToLe(v.amount, 8), r4);
    Behind(data, 80, v.notarySigHash, r5);
    Behind(data, 112, v.notaryCertHash, r6);
    Behind(data, 144, v.egissHash, r7);
    Behind(data, 176, ToLe(FromInt64(v.registeredAt), 8), r8);
    Behind(data, 184, ToLe(FromInt64(v.releasedAt), 8), r9);
    Behind(data, 192, [status], [v.bump] + rest);
    Behind(data, 193, [v.bump], rest);
    FromLeToLe(v.amount, 8);
    FromLeToLe(FromInt64(v.registeredAt), 8);
    FromLeToLe(FromInt64(v.releasedAt), 8);
  }

  /** The same for a lien index. */
  lemma IndexReadAt(v: LienIndexData, data: Bytes)
    requires |data| >= 8 && IndexBytes(v) <= data[8..]
    ensures |data| >= 44
    ensures v.parcelPda == data[8..40] && v.activeLienCount == data[40]
    ensures FromLe(data[41..43]) == v.totalLienCount && v.bump == data[43]
  {
    WidthsFit();
    var rest := data[8..][36..];
    var r2 := ToLe(v.totalLienCount, 2) + ([v.bump] + rest);
    assert data[8..] == v.parcelPda + ([v.activeLienCount] + r2);
    Behind(data, 8, v.parcelPda, [v.activeLienCount] + r2);
    Behind(data, 40, [v.activeLienCount], r2);
    Behind(data, 41, ToLe(v.totalLienCount, 2), [v.bump] + rest);
    Behind(data, 43, [v.bump], rest);
    FromLeToLe(v.totalLienCount, 2);
  }

  /** The same for a parcel; n is the length of its cadastral string. */
  lemma ParcelReadAt(v: ParcelData, kyc: U8, data: Bytes, n: nat)
    requires |data| >= 8 && ParcelBytes(v, kyc) <= data[8..] && n == |v.cadastral|
    ensures |data| >= 137 + n
    ensures v.owner == data[8..40] && v.mintAuthority == data[40..72] && v.cadastral == data[76..76 + n]
    ensures ToLe(v.areaHa, 4) == data[76 + n..80 + n] && v.landClass == data[80 + n] && kyc == data[81 + n]
    ensures v.kycMethod == data[82 + n] && ToLe(v.lastCertEpoch, 8) == data[83 + n..91 + n]
    ensures ToLe(v.certCount, 2) == data[91 + n..93 + n] && v.ndviSubmissions == data[93 + n]
    ensures v.dormantSeasons == data[94 + n] && v.egissHash == data[95 + n..127 + n] && v.riskFlag == data[127 + n]
    ensures ToLe(FromInt64(v.registeredAt), 8) == data[128 + n..136 + n] && v.bump == data[136 + n]
  {
    var rest := data[8..][|ParcelBytes(v, kyc)|..];
    var f := AfterCadastral(v, kyc);
    var r := f + rest;
    var s := ToLe(n, 4) + (v.cadastral + r);
    assert data[8..] == v.owner + (v.mintAuthority + s);
    Behind(data, 8, v.owner, v.mintAuthority + s);
    Behind(data, 40, v.mintAuthority, s);
    Behind(data, 72, ToLe(n, 4), v.cadastral + r);
    Behind(data, 76, v.cadastral, r);
    Behind(data, 76 + n, f, rest);
    FrontOffsets(ToLe(v.areaHa, 4), [v.landClass], [kyc], [v.kycMethod], ToLe(v.lastCertEpoch, 8), ToLe(v.certCount, 2),
                 Counters(v), f);
    CountersReadAt(v, f);
    Within(data, 76 + n, f, 0, 4);
    Within(data, 76 + n, f, 7, 15);
    Within(data, 76 + n, f, 15, 17);
    Within(data, 76 + n, f, 19, 51);
    Within(data, 76 + n, f, 52, 60);
  }

  lemma CountersReadAt(v: ParcelData, f: Bytes)
    requires |f| == 61 && f[17..] == Counters(v)
    ensures f[17] == v.ndviSubmissions && f[18] == v.dormantSeasons && f[19..51] == v.egissHash && f[51] == v.riskFlag
    ensures f[52..60] == ToLe(FromInt64(v.registeredAt), 8) && f[60] == v.bump
  {
    var tail := ToLe(FromInt64(v.registeredAt), 8) + [v.bump];
    HalfOffsets([v.ndviSubmissions], [v.dormantSeasons], v.egissHash, [v.riskFlag], tail, f[17..]);
    assert f[19..51] == f[17..][2..34] && f[51] == f[17..][34];
    assert f[52..60] == f[17..][35..][..8] && f[60] == f[17..][35..][8];
  }
}
