/** The instruction handlers as they run: they read accounts, check, update the
    accounts field by field, and write them back only on success. */
module Ledger {
  import opened Borsh
  import opened Accounts
  import TerraToken
  import LienRegistry
  import opened Protocol
  import opened ParcelHistory

  // ---------------------------------------------- what a caller can rely on

  ghost predicate HistoryShows(w: World, p: Address) {
    if p in w.state.parcels then Reflects(w.state.parcels[p], Deeds(w.log, p)) else Deeds(w.log, p) == []
  }

  /** Counters agree with live accounts, and every parcel with its history. */
  ghost predicate Sound(w: World) {
    Consistent(w) && forall p: Address :: HistoryShows(w, p)
  }

  /** Every handler: nothing is written on an error, nothing outside the parcel
      ever, and a sound ledger stays sound. */
  ghost predicate Kept(w: World, w': World, parcel: Address, err: Option<ChainError>) {
    && (err.Some? ==> w' == w)
    && SameOff(w.state, w'.state, parcel)
    && (Sound(w) ==> Sound(w'))
  }

  /** The transaction was logged, with this event. */
  ghost predicate Logged(w: World, w': World, tx: Tx, event: Option<Event>) {
    w'.log == w.log + [Entry(tx, event)]
  }

  /** Only a new parcel was added, unpledged, ungraded, without history, and
      transferable; its registrant owns it and is its authority. */
  ghost predicate Opened(w: World, w': World, tx: Tx)
    requires tx.ix.RegisterParcel?
  {
    var s, s', ix := w.state, w'.state, tx.ix;
    && ix.parcel !in s.parcels && s'.parcels.Keys == s.parcels.Keys + {ix.parcel}
    && s'.indexes == s.indexes && s'.encumbrances == s.encumbrances
    && (var p := s'.parcels[ix.parcel];
        && p.owner == p.mintAuthority == ix.owner && p.cadastral == ix.cadastral && p.areaHa == ix.areaHa
        && p.landClass == ix.landClass && p.egissHash == ix.egissHash && p.bump == ix.bump
        && p.registeredAt == tx.unixTime && p.kycVerified && p.kycMethod == 1 && Reflects(p, [])
        && p.aiScore == 0 && p.collateralGrade == 3 && p.recommendedLtv == 0)
    && TerraToken.HookExecute(s', ix.parcel) == TerraToken.Accept
    && Logged(w, w', tx, Some(ParcelRegistered(ix.cadastral, ix.owner, ix.areaHa)))
  }

  /** The history grew by one deed; only this parcel's account changed. */
  ghost predicate Grew(w: World, w': World, parcel: Address, d: Deed) {
    && parcel in w.state.parcels && parcel in w'.state.parcels
    && Deeds(w'.log, parcel) == Deeds(w.log, parcel) + [d]
    && w'.state == w.state.(parcels := w.state.parcels[parcel := w'.state.parcels[parcel]])
  }

  /** A mint raises two counters and stamps the slot. */
  ghost predicate Certified(w: World, w': World, tx: Tx)
    requires tx.ix.MintCertificate?
  {
    var ix := tx.ix;
    && Grew(w, w', ix.parcel, Minted(tx.slot))
    && (var p, p' := w.state.parcels[ix.parcel], w'.state.parcels[ix.parcel];
        && p'.certCount == p.certCount + 1 && p'.ndviSubmissions == p.ndviSubmissions + 1
        && p' == p.(lastCertEpoch := tx.slot, certCount := p'.certCount, ndviSubmissions := p'.ndviSubmissions))
    && Logged(w, w', tx, Some(CertificateMinted(ix.cadastral, ix.season, ix.ndviScore, ix.certificateMint)))
  }

  /** A check clears the pending mints; with none pending it announces the new
      dormancy, and otherwise nothing. */
  ghost predicate CheckedOff(w: World, w': World, tx: Tx)
    requires tx.ix.SeasonalCheck?
  {
    var ix := tx.ix;
    && Grew(w, w', ix.parcel, Checked(tx.slot))
    && var p, p' := w.state.parcels[ix.parcel], w'.state.parcels[ix.parcel];
       && p' == p.(dormantSeasons := p'.dormantSeasons, ndviSubmissions := 0)
       && (p.ndviSubmissions > 0 ==> p'.dormantSeasons == 0 && Logged(w, w', tx, None))
       && (p.ndviSubmissions == 0 ==>
             && p'.dormantSeasons == (if p.dormantSeasons < 255 then p.dormantSeasons + 1 else 255)
             && Logged(w, w', tx, Some(ParcelDormant(ix.cadastral, p'.dormantSeasons,
                                                     TerraToken.ResolveActiveLien(w.state, ix.lienAccount)))))
  }

  /** An assessment records its three numbers and may flip the flag. */
  ghost predicate Rated(w: World, w': World, tx: Tx)
    requires tx.ix.UpdateRiskAssessment?
  {
    var ix := tx.ix;
    && Grew(w, w', ix.parcel, Assessed(ix.aiScore))
    && var p, p' := w.state.parcels[ix.parcel], w'.state.parcels[ix.parcel];
       && p' == p.(aiScore := ix.aiScore, collateralGrade := ix.grade, recommendedLtv := ix.ltv, riskFlag := p'.riskFlag)
       && Logged(w, w', tx, Some(RiskAssessmentUpdated(ix.cadastral, ix.aiScore, ix.grade, ix.ltv, p'.riskFlag)))
  }

  /** The parcel's index names it, with the bump it was first given. */
  ghost predicate IndexKept(s: State, s': State, parcel: Address, bump: U8) {
    var i := LienIndexPda(parcel);
    && s'.indexes.Keys == s.indexes.Keys + {i} && s'.indexes[i].parcelPda == parcel
    && s'.indexes[i].bump == (if i in s.indexes then s.indexes[i].bump else bump)
  }

  /** The parcel was free and is now pledged to this lender alone; the new account
      records the instruction, the parcel's snapshot and the time. */
  ghost predicate Pledged(w: World, w': World, tx: Tx)
    requires tx.ix.RegisterEncumbrance?
  {
    var s, s', ix := w.state, w'.state, tx.ix;
    && LiveLiens(s, ix.parcel) == {} && LiveLiens(s', ix.parcel) == {EncumbrancePda(ix.parcel, ix.lender)}
    && ActiveCount(s, ix.parcel) == 0 && ActiveCount(s', ix.parcel) == 1
    && TotalCount(s', ix.parcel) == TotalCount(s, ix.parcel) + 1
    && s'.encumbrances.Keys == s.encumbrances.Keys + {ix.encumbrance} && s'.parcels == s.parcels
    && IndexKept(s, s', ix.parcel, ix.lienIndexBump)
    && ix.parcel in s.parcels && Records(s'.encumbrances[ix.encumbrance], tx, s.parcels[ix.parcel].egissHash)
    && Logged(w, w', tx, Some(EncumbranceRegistered(ix.cadastral, ix.lender, ix.amount, ix.parcel)))
  }

  /** The lender's account is gone, every other is untouched, the parcel is free. */
  ghost predicate Freed(w: World, w': World, tx: Tx)
    requires tx.ix.ReleaseEncumbrance?
  {
    var s, s', ix := w.state, w'.state, tx.ix;
    && LiveLiens(s, ix.parcel) == {EncumbrancePda(ix.parcel, ix.lender)} && LiveLiens(s', ix.parcel) == {}
    && ActiveCount(s, ix.parcel) == 1 && ActiveCount(s', ix.parcel) == 0
    && TotalCount(s', ix.parcel) == TotalCount(s, ix.parcel) && IndexKept(s, s', ix.parcel, 0)
    && s'.encumbrances == s.encumbrances - {ix.encumbrance} && s'.parcels == s.parcels
    && ix.parcel in s.parcels
    && Logged(w, w', tx, Some(EncumbranceReleased(s.parcels[ix.parcel].cadastral, ix.lender, ix.parcel)))
  }

  lemma StepKept(w: World, tx: Tx, err: Option<ChainError>)
    requires err.None? <==> LienRegistry.Execute(w.state, tx).Committed?
    ensures Kept(w, Step(w, tx), tx.ix.parcel, err)
  {
    WritesOnlyItsParcel(w.state, tx);
    assert Step(w, tx).state == LienRegistry.After(w.state, tx);
    if Sound(w) {
      StepConsistent(w, tx);
      forall p: Address
        ensures HistoryShows(Step(w, tx), p)
      {
        assert HistoryShows(w, p);
        StepReflects(w, tx, p);
      }
    }
  }

  lemma RunSound(txs: seq<Tx>)
    ensures Sound(Run(txs))
  {
    RunConsistent(txs);
    forall p: Address
      ensures HistoryShows(Run(txs), p)
    {
      CountersRefineHistory(txs, p);
    }
  }

  lemma FlagIsBit(w: World, p: Address)
    requires Sound(w) && p in w.state.parcels
    ensures w.state.parcels[p].riskFlag in {0, 1}
  {
    assert HistoryShows(w, p);
  }

  /** A new parcel at its own address, named in at most 20 bytes, with an area and a
      land class from 1 to 8. */
  predicate ValidOpening(s: State, ix: Instruction)
    requires ix.RegisterParcel?
  {
    && ix.parcel == ParcelPda(ix.cadastral) && ix.parcel !in s.parcels
    && |ix.cadastral| <= 20 && ix.areaHa > 0 && 1 <= ix.landClass <= 8
  }

  /** The transaction failed exactly when an error was reported. */
  ghost predicate Answers(err: Option<ChainError>, w: World, tx: Tx) {
    err.None? <==> LienRegistry.Execute(w.state, tx).Committed?
  }

  lemma StepOpens(w: World, tx: Tx)
    requires tx.ix.RegisterParcel? && TerraToken.RegisterParcelSpec(w.state, tx).Committed?
    ensures Opened(w, Step(w, tx), tx)
  {
  }

  lemma StepGrows(w: World, tx: Tx, d: Deed)
    requires IsTokenInstruction(tx.ix) && NewDeed(w.state, tx, tx.ix.parcel) == [d]
    ensures Grew(w, Step(w, tx), tx.ix.parcel, d)
  {
    DeedsStep(w, tx, tx.ix.parcel);
    TokenLeavesLiens(w.state, tx);
    assert Step(w, tx).state == LienRegistry.After(w.state, tx);
  }

  lemma StepCertifies(w: World, tx: Tx)
    requires tx.ix.MintCertificate? && TerraToken.MintCertificateSpec(w.state, tx).Committed?
    ensures Certified(w, Step(w, tx), tx)
  {
    StepGrows(w, tx, Minted(tx.slot));
  }

  lemma StepChecksOff(w: World, tx: Tx)
    requires tx.ix.SeasonalCheck? && TerraToken.SeasonalCheckSpec(w.state, tx).Committed?
    ensures CheckedOff(w, Step(w, tx), tx)
  {
    StepGrows(w, tx, Checked(tx.slot));
  }

  lemma StepRates(w: World, tx: Tx)
    requires tx.ix.UpdateRiskAssessment? && TerraToken.UpdateRiskAssessmentSpec(w.state, tx).Committed?
    ensures Rated(w, Step(w, tx), tx)
  {
    StepGrows(w, tx, Assessed(tx.ix.aiScore));
  }

  lemma StepPledges(w: World, tx: Tx)
    requires Consistent(w) && tx.ix.RegisterEncumbrance? && LienRegistry.RegisterEncumbranceSpec(w.state, tx).Committed?
    ensures Pledged(w, Step(w, tx), tx)
  {
    var p := tx.ix.parcel;
    assert CountsAgreeAt(w, p);
    assert LiveLiens(w.state, p) == {};
    assert LienIndexPda(p) in w.state.indexes ==> w.state.indexes[LienIndexPda(p)].parcelPda == p;
    assert LiveLiens(Step(w, tx).state, p) == {EncumbrancePda(p, tx.ix.lender)};
  }

  /** What a successful transaction did, for the instructions on liens as long as
      the counters agree with the accounts. */
  ghost predicate Promised(w: World, w': World, tx: Tx) {
    match tx.ix
    case RegisterParcel(_, _, _, _, _, _, _) => Opened(w, w', tx)
    case MintCertificate(_, _, _, _, _, _, _, _) => Certified(w, w', tx)
    case SeasonalCheck(_, _, _) => CheckedOff(w, w', tx)
    case UpdateRiskAssessment(_, _, _, _, _, _) => Rated(w, w', tx)
    case RegisterEncumbrance(_, _, _, _, _, _, _, _, _, _) => Consistent(w) ==> Pledged(w, w', tx)
    case ReleaseEncumbrance(_, _, _, _) => Consistent(w) ==> Freed(w, w', tx)
  }

  lemma StepPromised(w: World, tx: Tx)
    requires LienRegistry.Execute(w.state, tx).Committed?
    ensures Promised(w, Step(w, tx), tx)
  {
    match tx.ix
    case RegisterParcel(_, _, _, _, _, _, _) => StepOpens(w, tx);
    case MintCertificate(_, _, _, _, _, _, _, _) => StepCertifies(w, tx);
    case SeasonalCheck(_, _, _) => StepChecksOff(w, tx);
    case UpdateRiskAssessment(_, _, _, _, _, _) => StepRates(w, tx);
    case RegisterEncumbrance(_, _, _, _, _, _, _, _, _, _) => if Consistent(w) { StepPledges(w, tx); }
    case ReleaseEncumbrance(_, _, _, _) => if Consistent(w) { StepFrees(w, tx); }
  }

  lemma StepFrees(w: World, tx: Tx)
    requires Consistent(w) && tx.ix.ReleaseEncumbrance? && LienRegistry.ReleaseEncumbranceSpec(w.state, tx).Committed?
    ensures Freed(w, Step(w, tx), tx)
  {
    assert tx.ix.parcel == ParcelPda(w.state.parcels[tx.ix.parcel].cadastral);
    assert w.state.indexes[LienIndexPda(tx.ix.parcel)].parcelPda == tx.ix.parcel;
    LiveIffMember(w, w.state.parcels[tx.ix.parcel].cadastral, tx.ix.lender);
    ReleaseKeepsCounts(w, tx, tx.ix.parcel);
    assert LiveLiens(Step(w, tx).state, tx.ix.parcel) == {};
  }

  class Ledger {
    var parcels: map<Address, ParcelConfig>
    var indexes: map<Address, LienIndex>
    var encumbrances: map<Address, Encumbrance>
    var log: seq<Entry>

    constructor ()
      ensures Contents() == Run([]) && Sound(Contents())
    {
      RunSound([]);
      parcels, indexes, encumbrances, log := map[], map[], map[], [];
    }

    function Contents(): World
      reads this
    {
      World(State(parcels, indexes, encumbrances), log)
    }

    method Execute(tx: Tx) returns (err: Option<ChainError>)
      modifies this
      ensures Contents() == Step(old(Contents()), tx)
      ensures Answers(err, old(Contents()), tx)
    {
      match tx.ix
      case RegisterParcel(_, _, _, _, _, _, _) => err := RegisterParcel(tx);
      case MintCertificate(_, _, _, _, _, _, _, _) => err := MintCertificate(tx);
      case SeasonalCheck(_, _, _) => err := SeasonalCheck(tx);
      case UpdateRiskAssessment(_, _, _, _, _, _) => err := UpdateRiskAssessment(tx);
      case RegisterEncumbrance(_, _, _, _, _, _, _, _, _, _) => err := RegisterEncumbrance(tx);
      case ReleaseEncumbrance(_, _, _, _) => err := ReleaseEncumbrance(tx);
    }

    /** One transaction, as its sender sees it. */
    method Submit(tx: Tx) returns (err: Option<ChainError>)
      modifies this
      ensures Contents() == Step(old(Contents()), tx)
      ensures Kept(old(Contents()), Contents(), tx.ix.parcel, err)
      ensures err.None? ==> Promised(old(Contents()), Contents(), tx)
    {
      ghost var w := Contents();
      err := Execute(tx);
      StepKept(w, tx, err);
      if err.None? {
        StepPromised(w, tx);
      }
    }

    method ExecuteNext(ghost done: seq<Tx>, tx: Tx) returns (err: Option<ChainError>)
      requires Contents() == Run(done)
      modifies this
      ensures Contents() == Run(done + [tx])
      ensures Answers(err, Run(done), tx)
    {
      assert (done + [tx])[..|done|] == done;
      err := Execute(tx);
    }

    /** A sequence of transactions, each committing or aborting alone: a ledger that
        has run `done` ends as the run of them all. */
    method ExecuteAll(ghost done: seq<Tx>, txs: seq<Tx>)
      requires Contents() == Run(done)
      modifies this
      ensures Contents() == Run(done + txs)
    {
      assert done + txs[..0] == done;
      for i := 0 to |txs|
        invariant Contents() == Run(done + txs[..i])
      {
        assert done + txs[..i] + [txs[i]] == done + txs[..i + 1];
        var _ := ExecuteNext(done + txs[..i], txs[i]);
      }
      assert txs[..|txs|] == txs;
    }

    method RegisterParcel(tx: Tx) returns (err: Option<ChainError>)
      requires tx.ix.RegisterParcel?
      modifies this
      ensures Contents() == Step(old(Contents()), tx)
      ensures Reports(err, TerraToken.RegisterParcelSpec(old(Contents()).state, tx))
      ensures err.None? <==> ValidOpening(old(Contents()).state, tx.ix)
      ensures err.None? ==> Opened(old(Contents()), Contents(), tx)
    {
      ghost var w, o := Contents(), TerraToken.RegisterParcelSpec(Contents().state, tx);
      if o.Committed? {
        StepOpens(w, tx);
      }
      var ix := tx.ix;
      if ix.parcel in parcels || ix.parcel != ParcelPda(ix.cadastral) { return Some(AccountConstraint); }
      if |ix.cadastral| > TerraToken.MAX_CADASTRAL_LEN { return Some(CadastralTooLong); }
      if ix.areaHa == 0 { return Some(InvalidArea); }
      if ix.landClass < 1 || ix.landClass > 8 { return Some(InvalidLandClass); }
      var parcel := ParcelConfig(
        owner := ix.owner, mintAuthority := ix.owner, cadastral := ix.cadastral, areaHa := ix.areaHa,
        landClass := ix.landClass, kycVerified := true, kycMethod := 1, lastCertEpoch := 0, certCount := 0,
        ndviSubmissions := 0, dormantSeasons := 0, egissHash := ix.egissHash, riskFlag := 0,
        registeredAt := tx.unixTime, bump := ix.bump, aiScore := 0, collateralGrade := 3, recommendedLtv := 0);
      parcels := parcels[ix.parcel := parcel];
      log := log + [Entry(tx, Some(ParcelRegistered(ix.cadastral, parcel.owner, ix.areaHa)))];
      return None;
    }

    method MintCertificate(tx: Tx) returns (err: Option<ChainError>)
      requires tx.ix.MintCertificate?
      modifies this
      ensures Contents() == Step(old(Contents()), tx)
      ensures Reports(err, TerraToken.MintCertificateSpec(old(Contents()).state, tx))
      ensures err.None? ==>
                && Grew(old(Contents()), Contents(), tx.ix.parcel, Minted(tx.slot))
                && old(parcels)[tx.ix.parcel].riskFlag == 0
    {
      ghost var w, o := Contents(), TerraToken.MintCertificateSpec(Contents().state, tx);
      if o.Committed? {
        StepGrows(w, tx, Minted(tx.slot));
      }
      var ix := tx.ix;
      if !TerraToken.VerifyParcel(Contents().state, ix.parcel, ix.cadastral) { return Some(AccountConstraint); }
      var parcel := parcels[ix.parcel];
      if parcel.mintAuthority != ix.mintAuthority { return Some(AccountConstraint); }
      if !parcel.kycVerified { return Some(ParcelNotVerified); }
      if parcel.riskFlag != 0 { return Some(RiskFlagSet); }
      if parcel.owner != ix.owner { return Some(OwnerMismatch); }
      if !ix.tokenCallsOk { return Some(ForeignCall); }
      parcel := parcel.(lastCertEpoch := tx.slot);
      if parcel.certCount + 1 > 0xFFFF { return Some(ArithmeticPanic); }
      parcel := parcel.(certCount := parcel.certCount + 1);
      if parcel.ndviSubmissions + 1 > 0xFF { return Some(ArithmeticPanic); }
      parcel := parcel.(ndviSubmissions := parcel.ndviSubmissions + 1);
      parcels := parcels[ix.parcel := parcel];
      log := log + [Entry(tx, Some(CertificateMinted(ix.cadastral, ix.season, ix.ndviScore, ix.certificateMint)))];
      return None;
    }

    method SeasonalCheck(tx: Tx) returns (err: Option<ChainError>)
      requires tx.ix.SeasonalCheck?
      modifies this
      ensures Contents() == Step(old(Contents()), tx)
      ensures Reports(err, TerraToken.SeasonalCheckSpec(old(Contents()).state, tx))
      ensures err.None? ==>
                && Grew(old(Contents()), Contents(), tx.ix.parcel, Checked(tx.slot))
                && parcels[tx.ix.parcel].ndviSubmissions == 0
                && (log[|log| - 1].event.Some? <==> old(parcels)[tx.ix.parcel].ndviSubmissions == 0)
    {
      ghost var w, o := Contents(), TerraToken.SeasonalCheckSpec(Contents().state, tx);
      if o.Committed? {
        StepGrows(w, tx, Checked(tx.slot));
      }
      var ix := tx.ix;
      if !TerraToken.VerifyParcel(Contents().state, ix.parcel, ix.cadastral) { return Some(AccountConstraint); }
      var parcel := parcels[ix.parcel];
      if parcel.lastCertEpoch != 0 {
        var due := parcel.lastCertEpoch + TerraToken.EPOCHS_PER_SEASON;
        if due >= 0x1_0000_0000_0000_0000 { return Some(ArithmeticPanic); }
        if tx.slot < due { return Some(TooEarlyForSeasonalCheck); }
      }
      var event := None;
      if parcel.ndviSubmissions == 0 {
        var dormant := if parcel.dormantSeasons < 0xFF then parcel.dormantSeasons + 1 else 0xFF;
        parcel := parcel.(dormantSeasons := dormant);
        var hasActiveLien := TerraToken.ResolveActiveLien(Contents().state, ix.lienAccount);
        event := Some(ParcelDormant(ix.cadastral, parcel.dormantSeasons, hasActiveLien));
      } else {
        parcel := parcel.(dormantSeasons := 0);
      }
      parcel := parcel.(ndviSubmissions := 0);
      parcels := parcels[ix.parcel := parcel];
      log := log + [Entry(tx, event)];
      return None;
    }

    method UpdateRiskAssessment(tx: Tx) returns (err: Option<ChainError>)
      requires tx.ix.UpdateRiskAssessment?
      modifies this
      ensures Contents() == Step(old(Contents()), tx)
      ensures Reports(err, TerraToken.UpdateRiskAssessmentSpec(old(Contents()).state, tx))
      ensures err.None? ==> Grew(old(Contents()), Contents(), tx.ix.parcel, Assessed(tx.ix.aiScore))
      ensures err.None? && old(Sound(Contents())) ==>
                parcels[tx.ix.parcel].riskFlag
                == if tx.ix.aiScore < 20 then 1 else if tx.ix.aiScore >= 40 then 0 else old(parcels)[tx.ix.parcel].riskFlag
    {
      ghost var w, o := Contents(), TerraToken.UpdateRiskAssessmentSpec(Contents().state, tx);
      if o.Committed? {
        StepGrows(w, tx, Assessed(tx.ix.aiScore));
      }
      if tx.ix.parcel in parcels && Sound(w) {
        FlagIsBit(w, tx.ix.parcel);
      }
      var ix := tx.ix;
      if !TerraToken.VerifyParcel(Contents().state, ix.parcel, ix.cadastral) { return Some(AccountConstraint); }
      var parcel := parcels[ix.parcel];
      if parcel.mintAuthority != ix.authority { return Some(UnauthorizedAuthority); }
      if ix.aiScore > 100 { return Some(InvalidAIScore); }
      if ix.grade > 3 { return Some(InvalidCollateralGrade); }
      if ix.ltv > 10000 { return Some(InvalidLTV); }
      parcel := parcel.(aiScore := ix.aiScore);
      parcel := parcel.(collateralGrade := ix.grade);
      parcel := parcel.(recommendedLtv := ix.ltv);
      if ix.aiScore < 20 && parcel.riskFlag == 0 {
        parcel := parcel.(riskFlag := 1);
      }
      if ix.aiScore >= 40 && parcel.riskFlag == 1 {
        parcel := parcel.(riskFlag := 0);
      }
      parcels := parcels[ix.parcel := parcel];
      log := log + [Entry(tx, Some(RiskAssessmentUpdated(ix.cadastral, ix.aiScore, ix.grade, ix.ltv, parcel.riskFlag)))];
      return None;
    }

    method RegisterEncumbrance(tx: Tx) returns (err: Option<ChainError>)
      requires tx.ix.RegisterEncumbrance?
      modifies this
      ensures Contents() == Step(old(Contents()), tx)
      ensures Reports(err, LienRegistry.RegisterEncumbranceSpec(old(Contents()).state, tx))
      ensures err.None? ==> tx.ix.encumbrance in encumbrances && tx.ix.parcel in old(parcels)
                            && Records(encumbrances[tx.ix.encumbrance], tx, old(parcels)[tx.ix.parcel].egissHash)
    {
      var ix := tx.ix;
      if ix.encumbrance != EncumbrancePda(ix.parcel, ix.lender) || ix.encumbrance in encumbrances
         || ix.lienIndex != LienIndexPda(ix.parcel) || ix.parcel !in parcels {
        return Some(AccountConstraint);
      }
      var lienIndex := LienRegistry.IndexOrFresh(Contents().state, ix.lienIndex);
      if !TerraToken.VerifyParcel(Contents().state, ix.parcel, ix.cadastral) { return Some(AccountConstraint); }
      var parcel := parcels[ix.parcel];
      if ix.amount == 0 { return Some(InvalidAmount); }
      if !parcel.kycVerified { return Some(ParcelNotVerified); }
      if lienIndex.activeLienCount != 0 { return Some(ActiveLienExists); }
      var encumbrance := Encumbrance(
        parcelPda := ix.parcel, lender := ix.lender, amount := ix.amount, notarySigHash := ix.notarySigHash,
        notaryCertHash := ix.notaryCertHash, egissHash := parcel.egissHash, registeredAt := tx.unixTime,
        releasedAt := 0, status := STATUS_ACTIVE, bump := ix.encumbranceBump);
      if lienIndex.parcelPda == DefaultKey {
        lienIndex := lienIndex.(parcelPda := ix.parcel);
        lienIndex := lienIndex.(bump := ix.lienIndexBump);
      }
      lienIndex := lienIndex.(activeLienCount := lienIndex.activeLienCount + 1);
      if lienIndex.totalLienCount + 1 > 0xFFFF { return Some(ArithmeticPanic); }
      lienIndex := lienIndex.(totalLienCount := lienIndex.totalLienCount + 1);
      encumbrances := encumbrances[ix.encumbrance := encumbrance];
      indexes := indexes[ix.lienIndex := lienIndex];
      log := log + [Entry(tx, Some(EncumbranceRegistered(ix.cadastral, ix.lender, ix.amount, ix.parcel)))];
      return None;
    }

    method ReleaseEncumbrance(tx: Tx) returns (err: Option<ChainError>)
      requires tx.ix.ReleaseEncumbrance?
      modifies this
      ensures Contents() == Step(old(Contents()), tx)
      ensures Reports(err, LienRegistry.ReleaseEncumbranceSpec(old(Contents()).state, tx))
      ensures err.None? ==> EncumbrancePda(tx.ix.parcel, tx.ix.lender) in old(encumbrances)
      ensures err.None? ==> encumbrances == old(encumbrances) - {EncumbrancePda(tx.ix.parcel, tx.ix.lender)}
      ensures err.None? ==> parcels == old(parcels) && indexes.Keys == old(indexes).Keys
    {
      var ix := tx.ix;
      if ix.encumbrance !in encumbrances || ix.encumbrance != EncumbrancePda(ix.parcel, ix.lender)
         || ix.lienIndex !in indexes || ix.lienIndex != LienIndexPda(ix.parcel) || ix.parcel !in parcels {
        return Some(AccountConstraint);
      }
      var encumbrance := encumbrances[ix.encumbrance];
      if encumbrance.lender != ix.lender { return Some(UnauthorizedRelease); }
      if encumbrance.status != STATUS_ACTIVE { return Some(EncumbranceNotActive); }
      var lienIndex := indexes[ix.lienIndex];
      lienIndex := lienIndex.(activeLienCount := LienRegistry.SaturatingPred(lienIndex.activeLienCount));
      indexes := indexes[ix.lienIndex := lienIndex];
      encumbrances := encumbrances - {ix.encumbrance};
      log := log + [Entry(tx, Some(EncumbranceReleased(parcels[ix.parcel].cadastral, ix.lender, ix.parcel)))];
      return None;
    }
  }

  /** A handler returns the error its specification aborts with, if any. */
  predicate Reports(err: Option<ChainError>, o: Outcome) {
    match o
    case Committed(_, _) => err == None
    case Aborted(e) => err == Some(e)
  }
}
