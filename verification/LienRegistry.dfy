/** The lien_registry program as a state transformer, and the whole chain's step. */
module LienRegistry {
  import opened Borsh
  import opened Accounts
  import opened TerraToken

  /** The index the handler sees: `init_if_needed` creates a zeroed one. */
  function IndexOrFresh(s: State, lienIndex: Address): LienIndex {
    if lienIndex in s.indexes then s.indexes[lienIndex] else FRESH_INDEX
  }

  function RegisterEncumbranceSpec(s: State, tx: Tx): Outcome
    requires tx.ix.RegisterEncumbrance?
  {
    var ix := tx.ix;
    if ix.parcel !in s.parcels                                      // owner = terra_token
       || ix.encumbrance != EncumbrancePda(ix.parcel, ix.lender)    // seeds
       || ix.encumbrance in s.encumbrances                          // init
       || ix.lienIndex != LienIndexPda(ix.parcel)                   // seeds
       || !VerifyParcel(s, ix.parcel, ix.cadastral)                 // cross-program call
    then Aborted(AccountConstraint)
    else
      var p := s.parcels[ix.parcel];
      var index := IndexOrFresh(s, ix.lienIndex);
      if ix.amount == 0 then Aborted(InvalidAmount)
      else if !p.kycVerified then Aborted(ParcelNotVerified)
      else if index.activeLienCount != 0 then Aborted(ActiveLienExists)
      else if index.totalLienCount == 0xFFFF then Aborted(ArithmeticPanic)
      else
        var enc := Encumbrance(ix.parcel, ix.lender, ix.amount, ix.notarySigHash, ix.notaryCertHash,
                               p.egissHash, tx.unixTime, 0, STATUS_ACTIVE, ix.encumbranceBump);
        var named := if index.parcelPda == DefaultKey
                     then index.(parcelPda := ix.parcel, bump := ix.lienIndexBump) else index;
        var index' := named.(activeLienCount := named.activeLienCount + 1,
                             totalLienCount := named.totalLienCount + 1);
        Committed(s.(encumbrances := s.encumbrances[ix.encumbrance := enc],
                     indexes := s.indexes[ix.lienIndex := index']),
                  Some(EncumbranceRegistered(ix.cadastral, ix.lender, ix.amount, ix.parcel)))
  }

  function ReleaseEncumbranceSpec(s: State, tx: Tx): Outcome
    requires tx.ix.ReleaseEncumbrance?
  {
    var ix := tx.ix;
    if ix.encumbrance !in s.encumbrances
       || ix.encumbrance != EncumbrancePda(ix.parcel, ix.lender)    // seeds
       || ix.lienIndex !in s.indexes
       || ix.lienIndex != LienIndexPda(ix.parcel)                   // seeds
       || ix.parcel !in s.parcels                                   // owner = terra_token
    then Aborted(AccountConstraint)
    else if s.encumbrances[ix.encumbrance].lender != ix.lender then Aborted(UnauthorizedRelease)  // has_one
    else if s.encumbrances[ix.encumbrance].status != STATUS_ACTIVE then Aborted(EncumbranceNotActive)
    else
      var index := s.indexes[ix.lienIndex];
      var index' := index.(activeLienCount := SaturatingPred(index.activeLienCount));
      Committed(s.(indexes := s.indexes[ix.lienIndex := index'],
                   encumbrances := s.encumbrances - {ix.encumbrance}),           // close = lender
                Some(EncumbranceReleased(s.parcels[ix.parcel].cadastral, ix.lender, ix.parcel)))
  }

  function SaturatingPred(n: U8): U8 {
    if n == 0 then 0 else n - 1
  }

  function Execute(s: State, tx: Tx): Outcome {
    match tx.ix
    case RegisterParcel(_, _, _, _, _, _, _) => RegisterParcelSpec(s, tx)
    case MintCertificate(_, _, _, _, _, _, _, _) => MintCertificateSpec(s, tx)
    case SeasonalCheck(_, _, _) => SeasonalCheckSpec(s, tx)
    case UpdateRiskAssessment(_, _, _, _, _, _) => UpdateRiskAssessmentSpec(s, tx)
    case RegisterEncumbrance(_, _, _, _, _, _, _, _, _, _) => RegisterEncumbranceSpec(s, tx)
    case ReleaseEncumbrance(_, _, _, _) => ReleaseEncumbranceSpec(s, tx)
  }

  function After(s: State, tx: Tx): State {
    var o := Execute(s, tx);
    if o.Committed? then o.state else s
  }
}
