/** Events on the wire: how the programs emit them and how the webhook decodes
    them and applies them to the liens table. */
module Webhook {
  import opened Borsh
  import opened Accounts
  import opened LienTable

  // Anchor event discriminators: the first 8 bytes of SHA-256("event:" + name).
  const DISC_PARCEL_REGISTERED: Bytes8 := [135, 44, 33, 59, 6, 1, 21, 83]
  const DISC_CERTIFICATE_MINTED: Bytes8 := [206, 5, 28, 151, 162, 190, 89, 143]
  const DISC_ENCUMBRANCE_REGISTERED: Bytes8 := [244, 146, 194, 213, 244, 116, 154, 25]
  const DISC_ENCUMBRANCE_RELEASED: Bytes8 := [106, 184, 64, 249, 123, 231, 43, 192]
  const DISC_PARCEL_DORMANT: Bytes8 := [203, 143, 66, 126, 235, 36, 243, 10]
  const DISC_RISK_ASSESSMENT_UPDATED: Bytes8 := [168, 137, 76, 49, 225, 246, 16, 68]

  // ------------------------------------------------------- the programs' side

  /** The leading fields of each event that the indexer reads. */
  function RegisteredFields(cadastral: Text, lender: Pubkey, amount: U64): Bytes {
    EncodeString(cadastral) + lender + ToLe(amount, 8)
  }

  function ReleasedFields(cadastral: Text, lender: Pubkey): Bytes {
    EncodeString(cadastral) + lender
  }

  function MintedFields(cadastral: Text, season: Text, score: U16, cert: Pubkey): Bytes {
    EncodeString(cadastral) + EncodeString(season) + ToLe(score, 2) + cert
  }

  function Payload(e: Event, render: Address -> Pubkey): Bytes {
    match e
    case ParcelRegistered(c, owner, area) => ReleasedFields(c, owner) + ToLe(area, 4)
    case CertificateMinted(c, season, score, cert) => MintedFields(c, season, score, cert)
    case ParcelDormant(c, seasons, lien) => EncodeString(c) + [seasons, if lien then 1 else 0]
    case RiskAssessmentUpdated(c, score, grade, ltv, flag) =>
      EncodeString(c) + [score, grade] + ToLe(ltv, 2) + [flag]
    case EncumbranceRegistered(c, lender, amount, pda) => RegisteredFields(c, lender, amount) + render(pda)
    case EncumbranceReleased(c, lender, pda) => ReleasedFields(c, lender) + render(pda)
  }

  function Discriminator(e: Event): Bytes8 {
    match e
    case ParcelRegistered(_, _, _) => DISC_PARCEL_REGISTERED
    case CertificateMinted(_, _, _, _) => DISC_CERTIFICATE_MINTED
    case ParcelDormant(_, _, _) => DISC_PARCEL_DORMANT
    case RiskAssessmentUpdated(_, _, _, _, _) => DISC_RISK_ASSESSMENT_UPDATED
    case EncumbranceRegistered(_, _, _, _) => DISC_ENCUMBRANCE_REGISTERED
    case EncumbranceReleased(_, _, _) => DISC_ENCUMBRANCE_RELEASED
  }

  /** The bytes `emit!` logs, for any rendering of addresses as 32 bytes. */
  function EncodeEvent(e: Event, render: Address -> Pubkey): Bytes {
    Discriminator(e) + Payload(e, render)
  }

  /** Where each field of a registration's event sits; n is the length of the
      cadastral. */
  lemma RegisteredOffsets(c: Text, lender: Pubkey, amount: U64, pda: Address, render: Address -> Pubkey, n: nat)
    requires n == |c|
    ensures var bytes := EncodeEvent(EncumbranceRegistered(c, lender, amount, pda), render);
            && |bytes| == 84 + n && bytes[..8] == [244, 146, 194, 213, 244, 116, 154, 25]
            && bytes[8..12] == ToLe(n, 4) && bytes[12..12 + n] == c && bytes[12 + n..44 + n] == lender
            && bytes[44 + n..52 + n] == ToLe(amount, 8) && bytes[52 + n..] == render(pda)
  {
    var bytes := EncodeEvent(EncumbranceRegistered(c, lender, amount, pda), render);
    var tail := ToLe(amount, 8) + render(pda);
    assert RegisteredFields(c, lender, amount) + render(pda) == EncodeString(c) + lender + tail;
    KeyedOffsets(bytes, DISC_ENCUMBRANCE_REGISTERED, c, lender, tail, n);
    Behind(bytes, 44 + n, ToLe(amount, 8), render(pda));
  }

  /** The same for a release's event. */
  lemma ReleasedOffsets(c: Text, lender: Pubkey, pda: Address, render: Address -> Pubkey, n: nat)
    requires n == |c|
    ensures var bytes := EncodeEvent(EncumbranceReleased(c, lender, pda), render);
            && |bytes| == 76 + n && bytes[..8] == [106, 184, 64, 249, 123, 231, 43, 192]
            && bytes[8..12] == ToLe(n, 4) && bytes[12..12 + n] == c && bytes[12 + n..44 + n] == lender
            && bytes[44 + n..] == render(pda)
  {
    KeyedOffsets(EncodeEvent(EncumbranceReleased(c, lender, pda), render), DISC_ENCUMBRANCE_RELEASED, c, lender,
                 render(pda), n);
  }

  lemma KeyedOffsets(bytes: Bytes, disc: Bytes8, c: Text, key: Pubkey, rest: Bytes, n: nat)
    requires n == |c| && bytes == disc + (EncodeString(c) + key + rest)
    ensures |bytes| == 44 + n + |rest| && bytes[..8] == disc && bytes[8..12] == ToLe(n, 4)
    ensures bytes[12..12 + n] == c && bytes[12 + n..44 + n] == key && bytes[44 + n..] == rest
  {
    assert EncodeString(c) + key + rest == ToLe(n, 4) + (c + (key + rest));
    Behind(bytes, 0, disc, ToLe(n, 4) + (c + (key + rest)));
    Behind(bytes, 8, ToLe(n, 4), c + (key + rest));
    Behind(bytes, 12, c, key + rest);
    Behind(bytes, 12 + n, key, rest);
  }

  // ------------------------------------------------------- the indexer's side

  datatype Registered = Registered(cadastral: Bytes, lender: Pubkey, amount: U64)
  /** Also what ParcelRegistered decodes to, with the owner for the lender. */
  datatype Keyed = Keyed(cadastral: Bytes, key: Pubkey)
  datatype Minted = Minted(cadastral: Bytes, season: Bytes, ndviScore: U16, certAddress: Pubkey)

  function DecodeRegistered(data: Bytes): Option<Registered> {
    var c := DecodeString(data, 0);
    if c.Short? then None else
    var l := DecodePubkey(data, c.offset);
    if l.Short? then None else
    var a := DecodeU64(data, l.offset);
    if a.Short? then None else Some(Registered(c.value, l.value, a.value))
  }

  function DecodeKeyed(data: Bytes): Option<Keyed> {
    var c := DecodeString(data, 0);
    if c.Short? then None else
    var k := DecodePubkey(data, c.offset);
    if k.Short? then None else Some(Keyed(c.value, k.value))
  }

  function DecodeMinted(data: Bytes): Option<Minted> {
    var c := DecodeString(data, 0);
    if c.Short? then None else
    var s := DecodeString(data, c.offset);
    if s.Short? then None else
    var n := DecodeU16(data, s.offset);
    if n.Short? then None else
    var k := DecodePubkey(data, n.offset);
    if k.Short? then None else Some(Minted(c.value, s.value, n.value, k.value))
  }

  // The decoders invert the encoding of the fields they read, whatever follows.

  lemma RegisteredInverts(c: Text, l: Pubkey, a: U64, rest: Bytes)
    ensures DecodeRegistered(RegisteredFields(c, l, a) + rest) == Some(Registered(c, l, a))
  {
    var data := RegisteredFields(c, l, a) + rest;
    assert data == [] + EncodeString(c) + (l + ToLe(a, 8) + rest);
    DecodeStringInverts([], c, l + ToLe(a, 8) + rest);
    assert data == EncodeString(c) + l + (ToLe(a, 8) + rest);
    DecodePubkeyInverts(EncodeString(c), l, ToLe(a, 8) + rest);
    assert data == (EncodeString(c) + l) + ToLe(a, 8) + rest;
    DecodeU64Inverts(EncodeString(c) + l, a, rest);
  }

  lemma KeyedInverts(c: Text, k: Pubkey, rest: Bytes)
    ensures DecodeKeyed(ReleasedFields(c, k) + rest) == Some(Keyed(c, k))
  {
    var data := ReleasedFields(c, k) + rest;
    assert data == [] + EncodeString(c) + (k + rest);
    DecodeStringInverts([], c, k + rest);
    DecodePubkeyInverts(EncodeString(c), k, rest);
  }

  lemma MintedInverts(c: Text, s: Text, n: U16, k: Pubkey, rest: Bytes)
    ensures DecodeMinted(MintedFields(c, s, n, k) + rest) == Some(Minted(c, s, n, k))
  {
    var p1 := EncodeString(c);
    var p2 := p1 + EncodeString(s);
    var p3 := p2 + ToLe(n, 2);
    var r3 := k + rest;
    var r2 := ToLe(n, 2) + r3;
    var r1 := EncodeString(s) + r2;
    var data := MintedFields(c, s, n, k) + rest;
    assert data == p3 + k + rest == p2 + ToLe(n, 2) + r3;
    assert data == p1 + EncodeString(s) + r2;
    assert data == [] + p1 + r1;
    DecodeStringInverts([], c, r1);
    DecodeStringInverts(p1, s, r2);
    DecodeU16Inverts(p2, n, r3);
    DecodePubkeyInverts(p3, k, rest);
  }

  // A cut inside the fields is always refused.

  lemma RegisteredRejectsPrefix(c: Text, l: Pubkey, a: U64, k: nat)
    requires k < |RegisteredFields(c, l, a)|
    ensures DecodeRegistered(RegisteredFields(c, l, a)[..k]) == None
  {
    var data := RegisteredFields(c, l, a);
    assert data == data + [];
    RegisteredInverts(c, l, a, []);
    if DecodeString(data[..k], 0).Decoded? {
      DecodeStringStable(data, k, 0);
      var o := DecodeString(data, 0).offset;
      if DecodePubkey(data[..k], o).Decoded? {
        DecodePubkeyStable(data, k, o);
      }
    }
  }

  lemma KeyedRejectsPrefix(c: Text, key: Pubkey, k: nat)
    requires k < |ReleasedFields(c, key)|
    ensures DecodeKeyed(ReleasedFields(c, key)[..k]) == None
  {
    var data := ReleasedFields(c, key);
    assert data == data + [];
    KeyedInverts(c, key, []);
    if DecodeString(data[..k], 0).Decoded? {
      DecodeStringStable(data, k, 0);
    }
  }

  lemma MintedRejectsPrefix(c: Text, s: Text, n: U16, key: Pubkey, k: nat)
    requires k < |MintedFields(c, s, n, key)|
    ensures DecodeMinted(MintedFields(c, s, n, key)[..k]) == None
  {
    var data := MintedFields(c, s, n, key);
    assert data == data + [];
    MintedInverts(c, s, n, key, []);
    if DecodeString(data[..k], 0).Decoded? {
      DecodeStringStable(data, k, 0);
      var o := DecodeString(data, 0).offset;
      if DecodeString(data[..k], o).Decoded? {
        DecodeStringStable(data, k, o);
        var o' := DecodeString(data, o).offset;
        if DecodeU16(data[..k], o').Decoded? {
          DecodeU16Stable(data, k, o');
        }
      }
    }
  }

  // ---------------------------------------------------------------- delivery

  /** What delivering one base64-decoded log payload does to the table. */
  function Deliver(t: Table, bytes: Bytes, now: Time): Table {
    if |bytes| < 8 then t
    else if bytes[..8] == DISC_ENCUMBRANCE_REGISTERED then
      match DecodeRegistered(bytes[8..])
      case None => t
      case Some(r) => Insert(t, IndexedLien(r), now)
    else if bytes[..8] == DISC_ENCUMBRANCE_RELEASED then
      match DecodeKeyed(bytes[8..])
      case None => t
      case Some(r) => ReleaseByWallet(t, Base58(r.key), r.cadastral, now)
    else t
  }

  /** The row the handler inserts. It never sets the parcel id. */
  function IndexedLien(r: Registered): Lien {
    Lien(ZERO_UUID, r.cadastral, Base58(r.lender), [], ToInt64(r.amount), [])
  }

  function ReleaseByWallet(t: Table, wallet: Wallet, cadastral: Bytes, now: Time): Table {
    var id := FindByWallet(t.rows, wallet, cadastral);
    if 0 in cadastral || id == None then t else SetStatus(t, id.value, Released, now)
  }

  /** A release that finds its row releases it, stamped with the time, and touches
      no other; one that finds none changes nothing. */
  lemma ReleasesItsRow(t: Table, wallet: Wallet, cadastral: Bytes, now: Time)
    ensures var id, t' := FindByWallet(t.rows, wallet, cadastral), ReleaseByWallet(t, wallet, cadastral, now);
            && t'.parcelIds == t.parcelIds
            && if 0 !in cadastral && id.Some? then OnlyReleased(t.rows, t'.rows, id.value, now) else t' == t
  {
  }

  /** The table effect an event is meant to have. */
  function Intended(t: Table, e: Event, now: Time): Table {
    match e
    case EncumbranceRegistered(c, l, a, _) => Insert(t, IndexedLien(Registered(c, l, a)), now)
    case EncumbranceReleased(c, l, _) => ReleaseByWallet(t, Base58(l), c, now)
    case _ => t
  }

  /** Every emitted event is decoded to exactly its intended effect. */
  lemma DeliverEvent(t: Table, e: Event, render: Address -> Pubkey, now: Time)
    ensures Deliver(t, EncodeEvent(e, render), now) == Intended(t, e, now)
  {
    var bytes := EncodeEvent(e, render);
    assert bytes[..8] == Discriminator(e) && bytes[8..] == Payload(e, render);
    match e
    case EncumbranceRegistered(c, l, a, pda) => RegisteredInverts(c, l, a, render(pda));
    case EncumbranceReleased(c, l, pda) => KeyedInverts(c, l, render(pda));
    case _ =>
  }

  /** A log line of a transaction; base64 decoding is left to the library. */
  datatype LogLine = ProgramData(decoded: Option<Bytes>) | OtherLine

  function DeliverLines(t: Table, lines: seq<LogLine>, now: Time): Table {
    if lines == [] then t
    else
      var before, last := DeliverLines(t, lines[..|lines| - 1], now), lines[|lines| - 1];
      if last.ProgramData? && last.decoded.Some? then Deliver(before, last.decoded.value, now) else before
  }

  class WebhookHandler {
    const lienRepo: LienPG

    constructor (lienRepo: LienPG)
      ensures this.lienRepo == lienRepo
    {
      this.lienRepo := lienRepo;
    }

    method ProcessTransaction(lines: seq<LogLine>, now: Time)
      modifies lienRepo
      ensures lienRepo.Contents() == DeliverLines(old(lienRepo.Contents()), lines, now)
    {
      for i := 0 to |lines|
        invariant lienRepo.Contents() == DeliverLines(old(lienRepo.Contents()), lines[..i], now)
      {
        assert lines[..i + 1][..i] == lines[..i];
        if lines[i].OtherLine? { continue; }
        if lines[i].decoded == None || |lines[i].decoded.value| < 8 { continue; }
        var disc := lines[i].decoded.value[..8];
        var eventData := lines[i].decoded.value[8..];
        RouteEvent(disc, eventData, now);
      }
      assert lines[..|lines|] == lines;
    }

    method RouteEvent(disc: Bytes8, data: Bytes, now: Time)
      modifies lienRepo
      ensures lienRepo.Contents() == Deliver(old(lienRepo.Contents()), disc + data, now)
    {
      assert (disc + data)[..8] == disc && (disc + data)[8..] == data;
      if disc == DISC_ENCUMBRANCE_REGISTERED {
        HandleEncumbranceRegistered(data, now);
      } else if disc == DISC_ENCUMBRANCE_RELEASED {
        HandleEncumbranceReleased(data, now);
      }
    }

    method HandleEncumbranceRegistered(data: Bytes, now: Time)
      modifies lienRepo
      ensures lienRepo.Contents() == match DecodeRegistered(data)
                                     case None => old(lienRepo.Contents())
                                     case Some(r) => Insert(old(lienRepo.Contents()), IndexedLien(r), now)
      ensures lienRepo.rows == old(lienRepo.rows)
              || (&& DecodeRegistered(data).Some?
                  && var r := DecodeRegistered(data).value;
                     lienRepo.rows == old(lienRepo.rows)
                       + [Row(Lien(0, r.cadastral, Base58(r.lender), [], ToInt64(r.amount), []), Active, now, None)])
    {
      var cadastral := DecodeString(data, 0);
      if cadastral.Short? { return; }
      var lender := DecodePubkey(data, cadastral.offset);
      if lender.Short? { return; }
      var amount := DecodeU64(data, lender.offset);
      if amount.Short? { return; }
      var lien := Lien(ZERO_UUID, cadastral.value, Base58(lender.value), [], ToInt64(amount.value), []);
      var _ := lienRepo.Create(lien, now);
    }

    method HandleEncumbranceReleased(data: Bytes, now: Time)
      modifies lienRepo
      ensures lienRepo.Contents() == match DecodeKeyed(data)
                                     case None => old(lienRepo.Contents())
                                     case Some(r) => ReleaseByWallet(old(lienRepo.Contents()), Base58(r.key), r.cadastral, now)
      ensures lienRepo.rows == old(lienRepo.rows)
              || (&& DecodeKeyed(data).Some?
                  && var r := DecodeKeyed(data).value;
                     var id := FindByWallet(old(lienRepo.rows), Base58(r.key), r.cadastral);
                     id.Some? && OnlyReleased(old(lienRepo.rows), lienRepo.rows, id.value, now))
      ensures DecodeKeyed(data).Some? && 0 !in DecodeKeyed(data).value.cadastral
              && FindByWallet(old(lienRepo.rows), Base58(DecodeKeyed(data).value.key), DecodeKeyed(data).value.cadastral).Some?
              ==> lienRepo.rows != old(lienRepo.rows)
    {
      var cadastral := DecodeString(data, 0);
      if cadastral.Short? { return; }
      var lender := DecodePubkey(data, cadastral.offset);
      if lender.Short? { return; }
      var existing := lienRepo.FindByWalletAndCadastral(Base58(lender.value), cadastral.value);
      if existing.Err? { return; }
      var _ := lienRepo.UpdateStatus(existing.value, Released, now);
    }
  }
}
