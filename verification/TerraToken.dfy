/** The terra_token and transfer_hook programs as state transformers. */
module TerraToken {
  import opened Borsh
  import opened Accounts

  const EPOCHS_PER_SEASON: U64 := 216_000 * 90
  const MAX_CADASTRAL_LEN := 20

  /** The seeds constraint shared by every instruction on an existing parcel,
      which is also all that verify_parcel checks. */
  predicate VerifyParcel(s: State, parcel: Address, cadastral: Bytes) {
    parcel in s.parcels && parcel == ParcelPda(cadastral)
  }

  function RegisterParcelSpec(s: State, tx: Tx): Outcome
    requires tx.ix.RegisterParcel?
  {
    var ix := tx.ix;
    if ix.parcel in s.parcels || ix.parcel != ParcelPda(ix.cadastral) then Aborted(AccountConstraint)
    else if |ix.cadastral| > MAX_CADASTRAL_LEN then Aborted(CadastralTooLong)
    else if ix.areaHa == 0 then Aborted(InvalidArea)
    else if !(1 <= ix.landClass <= 8) then Aborted(InvalidLandClass)
    else
      var parcel := ParcelConfig(
        ix.owner, ix.owner, ix.cadastral, ix.areaHa, ix.landClass, true, 1, 0, 0, 0, 0,
        ix.egissHash, 0, tx.unixTime, ix.bump, 0, 3, 0);
      Committed(s.(parcels := s.parcels[ix.parcel := parcel]),
                Some(ParcelRegistered(ix.cadastral, ix.owner, ix.areaHa)))
  }

  function MintCertificateSpec(s: State, tx: Tx): Outcome
    requires tx.ix.MintCertificate?
  {
    var ix := tx.ix;
    if !VerifyParcel(s, ix.parcel, ix.cadastral) then Aborted(AccountConstraint)
    else
      var p := s.parcels[ix.parcel];
      if p.mintAuthority != ix.mintAuthority then Aborted(AccountConstraint)
      else if !p.kycVerified then Aborted(ParcelNotVerified)
      else if p.riskFlag != 0 then Aborted(RiskFlagSet)
      else if p.owner != ix.owner then Aborted(OwnerMismatch)
      else if !ix.tokenCallsOk then Aborted(ForeignCall)
      else if p.certCount == 0xFFFF || p.ndviSubmissions == 0xFF then Aborted(ArithmeticPanic)
      else
        var p' := p.(lastCertEpoch := tx.slot, certCount := p.certCount + 1,
                     ndviSubmissions := p.ndviSubmissions + 1);
        Committed(s.(parcels := s.parcels[ix.parcel := p']),
                  Some(CertificateMinted(ix.cadastral, ix.season, ix.ndviScore, ix.certificateMint)))
  }

  /** Byte 40 of the optional account: the index's active count, or, when the
      caller passes an encumbrance instead, the first byte of its lender. */
  function ResolveActiveLien(s: State, account: Option<Address>): bool {
    match account
    case None => false
    case Some(a) =>
      if a in s.indexes then s.indexes[a].activeLienCount > 0
      else a in s.encumbrances && s.encumbrances[a].lender[0] > 0
  }

  function SeasonalCheckSpec(s: State, tx: Tx): Outcome
    requires tx.ix.SeasonalCheck?
  {
    var ix := tx.ix;
    if !VerifyParcel(s, ix.parcel, ix.cadastral) then Aborted(AccountConstraint)
    else
      var p := s.parcels[ix.parcel];
      if p.lastCertEpoch != 0 && p.lastCertEpoch + EPOCHS_PER_SEASON >= 0x1_0000_0000_0000_0000 then
        Aborted(ArithmeticPanic)
      else if p.lastCertEpoch != 0 && tx.slot < p.lastCertEpoch + EPOCHS_PER_SEASON then
        Aborted(TooEarlyForSeasonalCheck)
      else if p.ndviSubmissions == 0 then
        var dormant: U8 := if p.dormantSeasons == 0xFF then 0xFF else p.dormantSeasons + 1;
        Committed(s.(parcels := s.parcels[ix.parcel := p.(dormantSeasons := dormant)]),
                  Some(ParcelDormant(ix.cadastral, dormant, ResolveActiveLien(s, ix.lienAccount))))
      else
        Committed(s.(parcels := s.parcels[ix.parcel := p.(dormantSeasons := 0, ndviSubmissions := 0)]), None)
  }

  /** Scores, grade and LTV that pass the three range checks. */
  function CheckRanges(aiScore: U8, grade: U8, ltv: U16): Option<ChainError> {
    if aiScore > 100 then Some(InvalidAIScore)
    else if grade > 3 then Some(InvalidCollateralGrade)
    else if ltv > 10000 then Some(InvalidLTV)
    else None
  }

  function Assess(p: ParcelConfig, aiScore: U8, grade: U8, ltv: U16): ParcelConfig {
    p.(aiScore := aiScore, collateralGrade := grade, recommendedLtv := ltv,
       riskFlag := if aiScore < 20 && p.riskFlag == 0 then 1
                   else if aiScore >= 40 && p.riskFlag == 1 then 0
                   else p.riskFlag)
  }

  function UpdateRiskAssessmentSpec(s: State, tx: Tx): Outcome
    requires tx.ix.UpdateRiskAssessment?
  {
    var ix := tx.ix;
    if !VerifyParcel(s, ix.parcel, ix.cadastral) then Aborted(AccountConstraint)
    else if s.parcels[ix.parcel].mintAuthority != ix.authority then Aborted(UnauthorizedAuthority)
    else match CheckRanges(ix.aiScore, ix.grade, ix.ltv)
      case Some(e) => Aborted(e)
      case None =>
        var p' := Assess(s.parcels[ix.parcel], ix.aiScore, ix.grade, ix.ltv);
        Committed(s.(parcels := s.parcels[ix.parcel := p']),
                  Some(RiskAssessmentUpdated(ix.cadastral, ix.aiScore, ix.grade, ix.ltv, p'.riskFlag)))
  }

  datatype HookVerdict = Accept | FraudFlagged | CertificateExpired | NotAParcel

  /** transfer_hook's guard over the parcel account it is handed. */
  function HookExecute(s: State, parcel: Address): HookVerdict {
    if parcel !in s.parcels then NotAParcel
    else if s.parcels[parcel].riskFlag != 0 then FraudFlagged
    else if s.parcels[parcel].dormantSeasons > 2 then CertificateExpired
    else Accept
  }
}
