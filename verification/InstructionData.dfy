/** Instruction data: built by hand in Go and TypeScript, decoded by the programs. */
module InstructionData {
  import opened Borsh

  // Anchor instruction discriminators, as the SDK lists them.
  const REGISTER_ENCUMBRANCE: Bytes8 := [5, 82, 66, 155, 31, 178, 204, 252]
  const MINT_CERTIFICATE: Bytes8 := [53, 2, 104, 84, 51, 197, 179, 10]
  const UPDATE_RISK_ASSESSMENT: Bytes8 := [206, 125, 9, 31, 32, 136, 237, 16]

  // ------------------------------------------------ what the programs decode

  datatype RiskArgs = RiskArgs(cadastral: Bytes, aiScore: U8, grade: U8, ltv: U16)
  datatype EncumbranceArgs = EncumbranceArgs(cadastral: Text, amount: U64, notarySigHash: Bytes32, notaryCertHash: Bytes32)
  datatype MintArgs = MintArgs(cadastral: Bytes, season: Bytes, ndviScore: U16, cropType: Bytes)

  function DecodeRiskArgs(data: Bytes): Option<RiskArgs> {
    if |data| < 8 || data[..8] != UPDATE_RISK_ASSESSMENT then None else
    var c := DecodeString(data, 8);
    if c.Short? || c.offset + 2 > |data| then None else
    var ltv := DecodeU16(data, c.offset + 2);
    if ltv.Short? then None else Some(RiskArgs(c.value, data[c.offset], data[c.offset + 1], ltv.value))
  }

  function DecodeEncumbranceArgs(data: Bytes): Option<EncumbranceArgs> {
    if |data| < 8 || data[..8] != REGISTER_ENCUMBRANCE then None else
    var c := DecodeString(data, 8);
    if c.Short? then None else
    var a := DecodeU64(data, c.offset);
    if a.Short? then None else
    var s := DecodePubkey(data, a.offset);
    if s.Short? then None else
    var h := DecodePubkey(data, s.offset);
    if h.Short? then None else Some(EncumbranceArgs(c.value, a.value, s.value, h.value))
  }

  function DecodeMintArgs(data: Bytes): Option<MintArgs> {
    if |data| < 8 || data[..8] != MINT_CERTIFICATE then None else
    var c := DecodeString(data, 8);
    if c.Short? then None else
    var s := DecodeString(data, c.offset);
    if s.Short? then None else
    var n := DecodeU16(data, s.offset);
    if n.Short? then None else
    var crop := DecodeString(data, n.offset);
    if crop.Short? then None else Some(MintArgs(c.value, s.value, n.value, crop.value))
  }

  // ------------------------------------------------- what the clients build

  function RiskBytes(disc: Bytes8, cadastral: Text, aiScore: U8, grade: U8, ltv: U16): Bytes {
    disc + EncodeString(cadastral) + [aiScore] + [grade] + ToLe(ltv, 2)
  }

  /** Where each argument sits in the data; n is the length of the cadastral. */
  lemma RiskBytesOffsets(cadastral: Text, aiScore: U8, grade: U8, ltv: U16, n: nat)
    requires n == |cadastral|
    ensures var data := RiskBytes(UPDATE_RISK_ASSESSMENT, cadastral, aiScore, grade, ltv);
            && |data| == 16 + n && data[..8] == [206, 125, 9, 31, 32, 136, 237, 16]
            && data[8..12] == ToLe(n, 4) && data[12..12 + n] == cadastral
            && data[12 + n] == aiScore && data[13 + n] == grade && FromLe(data[14 + n..]) == ltv
  {
    var data := RiskBytes(UPDATE_RISK_ASSESSMENT, cadastral, aiScore, grade, ltv);
    assert data[8..12 + n] == EncodeString(cadastral);
    assert data[14 + n..] == ToLe(ltv, 2);
    WidthsFit();
    FromLeToLe(ltv, 2);
  }

  lemma RiskBytesDecode(cadastral: Text, aiScore: U8, grade: U8, ltv: U16)
    ensures DecodeRiskArgs(RiskBytes(UPDATE_RISK_ASSESSMENT, cadastral, aiScore, grade, ltv))
            == Some(RiskArgs(cadastral, aiScore, grade, ltv))
  {
    var d := UPDATE_RISK_ASSESSMENT;
    var data := RiskBytes(d, cadastral, aiScore, grade, ltv);
    var head := d + EncodeString(cadastral) + [aiScore] + [grade];
    assert data == d + EncodeString(cadastral) + ([aiScore] + [grade] + ToLe(ltv, 2));
    DecodeStringInverts(d, cadastral, [aiScore] + [grade] + ToLe(ltv, 2));
    assert data == head + ToLe(ltv, 2) + [];
    DecodeU16Inverts(head, ltv, []);
  }

  /** `uint8(x)` and `data[off] = x`: the low byte. */
  function LowByte(x: int): U8 {
    x % 0x100
  }

  function LowWord(x: int): U16 {
    x % 0x1_0000
  }

  /** `setBigUint64(0, x)`: the low eight bytes. */
  function LowQuad(x: int): U64 {
    x % 0x1_0000_0000_0000_0000
  }

  /** `copy`, `buf.set` and the DataView setters: overwrite part of a buffer. */
  method Put(buf: array<Byte>, off: nat, bs: Bytes)
    requires off + |bs| <= buf.Length
    modifies buf
    ensures buf[..] == old(buf[..off]) + bs + old(buf[off + |bs|..])
  {
    forall i | 0 <= i < |bs| {
      buf[off + i] := bs[i];
    }
  }

  /** The keeper's builder (Go). */
  method BuildRiskAssessmentData(disc: Bytes8, cadastral: Text, aiScore: U8, grade: U8, ltv: U16)
      returns (data: array<Byte>)
    ensures fresh(data)
    ensures data[..] == RiskBytes(disc, cadastral, aiScore, grade, ltv)
  {
    var strLen := |cadastral|;
    data := new Byte[8 + 4 + strLen + 1 + 1 + 2](_ => 0);
    Put(data, 0, disc);
    Put(data, 8, ToLe(strLen, 4));
    Put(data, 12, cadastral);
    assert data[..12 + strLen] == disc + EncodeString(cadastral);
    var off := 12 + strLen;
    data[off] := aiScore;
    assert data[..off + 1] == disc + EncodeString(cadastral) + [aiScore];
    data[off + 1] := grade;
    assert data[..off + 2] == disc + EncodeString(cadastral) + [aiScore] + [grade];
    Put(data, off + 2, ToLe(ltv, 2));
  }

  /** The SDK's builder (TypeScript), whose numbers are coerced as stored. */
  method BuildUpdateRiskAssessment(cadastral: Text, aiScore: int, collateralGrade: int, recommendedLtv: int)
      returns (data: array<Byte>)
    ensures fresh(data)
    ensures data[..] == RiskBytes(UPDATE_RISK_ASSESSMENT, cadastral, LowByte(aiScore), LowByte(collateralGrade),
                                  LowWord(recommendedLtv))
  {
    var n := |cadastral|;
    var score, grade, ltv := LowByte(aiScore), LowByte(collateralGrade), LowWord(recommendedLtv);
    data := new Byte[8 + 4 + n + 1 + 1 + 2](_ => 0);
    Put(data, 0, UPDATE_RISK_ASSESSMENT);
    Put(data, 8, ToLe(n, 4));
    Put(data, 12, cadastral);
    assert data[..12 + n] == UPDATE_RISK_ASSESSMENT + EncodeString(cadastral);
    var off := 12 + n;
    data[off] := score;
    assert data[..off + 1] == UPDATE_RISK_ASSESSMENT + EncodeString(cadastral) + [score];
    data[off + 1] := grade;
    assert data[..off + 2] == UPDATE_RISK_ASSESSMENT + EncodeString(cadastral) + [score] + [grade];
    Put(data, off + 2, ToLe(ltv, 2));
  }

  // -------------------------------------------------- concatenated builders

  function Flatten(arrays: seq<Bytes>): Bytes {
    if arrays == [] then [] else Flatten(arrays[..|arrays| - 1]) + arrays[|arrays| - 1]
  }

  method ConcatBytes(arrays: seq<Bytes>) returns (out: array<Byte>)
    ensures fresh(out) && out[..] == Flatten(arrays)
  {
    var total := 0;
    for i := 0 to |arrays|
      invariant total == |Flatten(arrays[..i])|
    {
      assert arrays[..i + 1][..i] == arrays[..i];
      total := total + |arrays[i]|;
    }
    assert arrays[..|arrays|] == arrays;
    out := new Byte[total](_ => 0);
    var offset := 0;
    for i := 0 to |arrays|
      invariant offset == |Flatten(arrays[..i])| <= out.Length == total
      invariant out[..offset] == Flatten(arrays[..i])
    {
      assert arrays[..i + 1][..i] == arrays[..i];
      FlattenGrows(arrays, i + 1);
      Put(out, offset, arrays[i]);
      offset := offset + |arrays[i]|;
    }
  }

  lemma {:induction false} FlattenGrows(arrays: seq<Bytes>, i: nat)
    requires i <= |arrays|
    ensures |Flatten(arrays[..i])| <= |Flatten(arrays)|
    decreases |arrays| - i
  {
    if i < |arrays| {
      FlattenGrows(arrays, i + 1);
      assert arrays[..i + 1][..i] == arrays[..i];
    } else {
      assert arrays[..i] == arrays;
    }
  }

  method EncodeStringBuffer(value: Text) returns (buf: array<Byte>)
    ensures fresh(buf) && buf[..] == EncodeString(value)
  {
    buf := new Byte[4 + |value|](_ => 0);
    Put(buf, 0, ToLe(|value|, 4));
    Put(buf, 4, value);
  }

  /** The data of the SDK's register_encumbrance instruction. The SDK takes any
      amount and arrays of any length for the hashes; the program reads the amount
      modulo 2^64 and the first 64 bytes of the two arrays together, cut after 32,
      and refuses the data exactly when they are fewer. */
  method BuildRegisterEncumbrance(cadastral: Text, amount: int, notarySigHash: Bytes, notaryCertHash: Bytes)
      returns (data: array<Byte>)
    ensures fresh(data)
    ensures data[..] == REGISTER_ENCUMBRANCE + EncodeString(cadastral) + ToLe(LowQuad(amount), 8)
                        + notarySigHash + notaryCertHash
    ensures DecodeEncumbranceArgs(data[..])
            == var hashes := notarySigHash + notaryCertHash;
               if |hashes| < 64 then None
               else Some(EncumbranceArgs(cadastral, LowQuad(amount), hashes[..32], hashes[32..64]))
  {
    var str := EncodeStringBuffer(cadastral);
    var arrays := [REGISTER_ENCUMBRANCE, str[..], ToLe(LowQuad(amount), 8), notarySigHash, notaryCertHash];
    data := ConcatBytes(arrays);
    FlattenFive(REGISTER_ENCUMBRANCE, str[..], ToLe(LowQuad(amount), 8), notarySigHash, notaryCertHash);
    EncumbranceArgsDecode(cadastral, LowQuad(amount), notarySigHash + notaryCertHash);
    assert data[..] == EncumbranceBytes(cadastral, LowQuad(amount), notarySigHash + notaryCertHash);
  }

  /** Where each argument sits in the data; n is the length of the cadastral. */
  lemma EncumbranceBytesOffsets(cadastral: Text, amount: U64, sig: Bytes32, cert: Bytes32, n: nat)
    requires n == |cadastral|
    ensures var data := EncumbranceBytes(cadastral, amount, sig + cert);
            && |data| == 84 + n && data[..8] == [5, 82, 66, 155, 31, 178, 204, 252]
            && data[8..12] == ToLe(n, 4) && data[12..12 + n] == cadastral
            && FromLe(data[12 + n..20 + n]) == amount
            && data[20 + n..52 + n] == sig && data[52 + n..] == cert
  {
    var data := EncumbranceBytes(cadastral, amount, sig + cert);
    assert data[8..12 + n] == EncodeString(cadastral);
    assert data[12 + n..20 + n] == ToLe(amount, 8);
    assert data[20 + n..] == sig + cert;
    WidthsFit();
    FromLeToLe(amount, 8);
  }

  function EncumbranceBytes(cadastral: Text, amount: U64, hashes: Bytes): Bytes {
    REGISTER_ENCUMBRANCE + EncodeString(cadastral) + ToLe(amount, 8) + hashes
  }

  lemma FlattenFive(a: Bytes, b: Bytes, c: Bytes, d: Bytes, e: Bytes)
    ensures Flatten([a, b, c, d, e]) == a + b + c + d + e
  {
    FlattenFour(a, b, c, d);
    assert [a, b, c, d, e][..4] == [a, b, c, d];
  }

  lemma FlattenFour(a: Bytes, b: Bytes, c: Bytes, d: Bytes)
    ensures Flatten([a, b, c, d]) == a + b + c + d
  {
    assert [a, b, c, d][..3] == [a, b, c];
    assert [a, b, c][..2] == [a, b];
    assert [a, b][..1] == [a];
    assert [a][..0] == [];
    assert Flatten([a]) == a;
    assert Flatten([a, b]) == a + b;
    assert Flatten([a, b, c]) == a + b + c;
  }

  lemma EncumbranceArgsDecode(cadastral: Text, amount: U64, hashes: Bytes)
    ensures DecodeEncumbranceArgs(EncumbranceBytes(cadastral, amount, hashes))
            == if |hashes| < 64 then None
               else Some(EncumbranceArgs(cadastral, amount, hashes[..32], hashes[32..64]))
  {
    var p0 := REGISTER_ENCUMBRANCE;
    var p1 := p0 + EncodeString(cadastral);
    var p2 := p1 + ToLe(amount, 8);
    var data := EncumbranceBytes(cadastral, amount, hashes);
    assert data == p1 + ToLe(amount, 8) + hashes;
    assert data == p0 + EncodeString(cadastral) + (ToLe(amount, 8) + hashes);
    DecodeStringInverts(p0, cadastral, ToLe(amount, 8) + hashes);
    DecodeU64Inverts(p1, amount, hashes);
    if |hashes| >= 64 {
      assert data[|p2|..|p2| + 32] == hashes[..32];
      assert data[|p2| + 32..|p2| + 64] == hashes[32..64];
    }
  }

  /** The data of the SDK's mint_certificate instruction ends at the score, so the
      program, which goes on to read a crop type, always refuses it. */
  method BuildMintCertificate(cadastral: Text, season: Text, ndviScore: int) returns (data: array<Byte>)
    ensures fresh(data)
    ensures data[..] == MINT_CERTIFICATE + EncodeString(cadastral) + EncodeString(season) + ToLe(LowWord(ndviScore), 2)
    ensures DecodeMintArgs(data[..]) == None
  {
    var str := EncodeStringBuffer(cadastral);
    var str' := EncodeStringBuffer(season);
    data := ConcatBytes([MINT_CERTIFICATE, str[..], str'[..], ToLe(LowWord(ndviScore), 2)]);
    FlattenFour(MINT_CERTIFICATE, str[..], str'[..], ToLe(LowWord(ndviScore), 2));
    MintArgsRefused(cadastral, season, LowWord(ndviScore));
  }

  lemma MintArgsRefused(cadastral: Text, season: Text, score: U16)
    ensures DecodeMintArgs(MINT_CERTIFICATE + EncodeString(cadastral) + EncodeString(season) + ToLe(score, 2)) == None
  {
    var p0 := MINT_CERTIFICATE;
    var p1 := p0 + EncodeString(cadastral);
    var p2 := p1 + EncodeString(season);
    var r1 := EncodeString(season) + ToLe(score, 2);
    var data := p2 + ToLe(score, 2);
    assert data == p2 + ToLe(score, 2) + [];
    assert data == p1 + EncodeString(season) + ToLe(score, 2);
    assert data == p0 + EncodeString(cadastral) + r1;
    DecodeStringInverts(p0, cadastral, r1);
    DecodeStringInverts(p1, season, ToLe(score, 2));
    DecodeU16Inverts(p2, score, []);
  }
}
