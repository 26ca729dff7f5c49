/** Which transactions are refused, and with which error, in reachable worlds. */
module Refusals {
  import opened Borsh
  import opened Accounts
  import opened TerraToken
  import opened LienRegistry
  import opened Protocol
  import opened ParcelHistory

  /** Each registration of a parcel commits or is refused by the first rule it breaks. */
  lemma OpeningRefused(s: State, tx: Tx)
    requires tx.ix.RegisterParcel?
    ensures var ix, o := tx.ix, Execute(s, tx);
            var unused := ix.parcel == ParcelPda(ix.cadastral) && ix.parcel !in s.parcels;
            && (o == Aborted(AccountConstraint) <==> !unused)
            && (o == Aborted(CadastralTooLong) <==> unused && |ix.cadastral| > 20)
            && (o == Aborted(InvalidArea) <==> unused && |ix.cadastral| <= 20 && ix.areaHa == 0)
            && (o == Aborted(InvalidLandClass)
                <==> unused && |ix.cadastral| <= 20 && ix.areaHa > 0 && (ix.landClass == 0 || ix.landClass > 8))
            && (o.Committed? <==> unused && |ix.cadastral| <= 20 && ix.areaHa > 0 && 1 <= ix.landClass <= 8)
  {
  }

  /** Every other parcel instruction is refused, whoever sends it, unless the account
      is the one its cadastral number derives. */
  lemma WrongParcelRefused(s: State, tx: Tx)
    requires tx.ix.MintCertificate? || tx.ix.SeasonalCheck? || tx.ix.UpdateRiskAssessment?
    requires tx.ix.parcel !in s.parcels || tx.ix.parcel != ParcelPda(tx.ix.cadastral)
    ensures Execute(s, tx) == Aborted(AccountConstraint)
  {
  }

  // ------------------------------------------------------------- who may act

  /** The mint authority of a parcel is its owner, who registered it. */
  ghost predicate OwnersAreAuthorities(s: State) {
    forall a <- s.parcels :: s.parcels[a].mintAuthority == s.parcels[a].owner
  }

  /** No instruction moves a parcel's mint authority: over every run it stays with
      the owner. */
  lemma {:induction false} AuthorityIsOwner(txs: seq<Tx>)
    ensures OwnersAreAuthorities(Run(txs).state)
  {
    if txs != [] {
      var before, tx := txs[..|txs| - 1], txs[|txs| - 1];
      AuthorityIsOwner(before);
      StepKeepsAuthority(Run(before).state, tx);
      assert Run(txs).state == After(Run(before).state, tx);
    }
  }

  lemma StepKeepsAuthority(s: State, tx: Tx)
    requires OwnersAreAuthorities(s)
    ensures OwnersAreAuthorities(After(s, tx))
  {
    if tx.ix.parcel in s.parcels {
      assert s.parcels[tx.ix.parcel].mintAuthority == s.parcels[tx.ix.parcel].owner;
    }
  }

  /** So an assessment commits exactly when the owner's key signs it and its numbers
      are in range, and is otherwise refused by the first rule it breaks. */
  lemma RatingRefused(txs: seq<Tx>, tx: Tx)
    requires tx.ix.UpdateRiskAssessment? && VerifyParcel(Run(txs).state, tx.ix.parcel, tx.ix.cadastral)
    ensures var ix, s := tx.ix, Run(txs).state;
            var o, owner := Execute(s, tx), s.parcels[ix.parcel].owner;
            && (o == Aborted(UnauthorizedAuthority) <==> ix.authority != owner)
            && (o == Aborted(InvalidAIScore) <==> ix.authority == owner && ix.aiScore > 100)
            && (o == Aborted(InvalidCollateralGrade) <==> ix.authority == owner && ix.aiScore <= 100 && ix.grade > 3)
            && (o == Aborted(InvalidLTV)
                <==> ix.authority == owner && ix.aiScore <= 100 && ix.grade <= 3 && ix.ltv > 10000)
            && (o.Committed? <==> ix.authority == owner && ix.aiScore <= 100 && ix.grade <= 3 && ix.ltv <= 10000)
  {
    AuthorityIsOwner(txs);
  }

  /** A mint commits exactly when the owner's key signs, the parcel is not flagged,
      the foreign calls succeed and neither counter is full; a parcel without KYC is
      never met. */
  lemma MintRefused(txs: seq<Tx>, tx: Tx)
    requires tx.ix.MintCertificate? && VerifyParcel(Run(txs).state, tx.ix.parcel, tx.ix.cadastral)
    ensures var ix, s := tx.ix, Run(txs).state;
            var o, owner, h := Execute(s, tx), s.parcels[ix.parcel].owner, Deeds(Run(txs).log, ix.parcel);
            var flagged := LatestDecisive(h).Some? && LatestDecisive(h).value < 20;
            var full := Mints(h) == 65535 || MintsSinceCheck(h) == 255;
            && (o == Aborted(AccountConstraint) <==> ix.mintAuthority != owner)
            && (o == Aborted(RiskFlagSet) <==> ix.mintAuthority == owner && flagged)
            && (o == Aborted(OwnerMismatch) <==> ix.mintAuthority == owner && !flagged && ix.owner != owner)
            && (o == Aborted(ForeignCall)
                <==> ix.mintAuthority == owner == ix.owner && !flagged && !ix.tokenCallsOk)
            && (o == Aborted(ArithmeticPanic)
                <==> ix.mintAuthority == owner == ix.owner && !flagged && ix.tokenCallsOk && full)
            && (o.Committed?
                <==> ix.mintAuthority == owner == ix.owner && !flagged && ix.tokenCallsOk && !full)
  {
    AuthorityIsOwner(txs);
    RunConsistent(txs);
    CountersRefineHistory(txs, tx.ix.parcel);
    LatestIsDecisive(Deeds(Run(txs).log, tx.ix.parcel));
  }

  /** What a check is answered when the latest mint was at slot `last`: too early for
      ninety days of 216000 slots. */
  ghost predicate CheckAnswer(o: Outcome, last: U64, slot: U64) {
    var overflow := last + 19_440_000 >= 0x1_0000_0000_0000_0000;
    && (o == Aborted(ArithmeticPanic) <==> overflow)
    && (o == Aborted(TooEarlyForSeasonalCheck) <==> !overflow && last > 0 && slot < last + 19_440_000)
    && (o.Committed? <==> last == 0 || slot >= last + 19_440_000)
  }

  lemma CheckRefused(txs: seq<Tx>, tx: Tx)
    requires tx.ix.SeasonalCheck?
    ensures var found := VerifyParcel(Run(txs).state, tx.ix.parcel, tx.ix.cadastral);
            var o := Execute(Run(txs).state, tx);
            && (o == Aborted(AccountConstraint) <==> !found)
            && (found ==> CheckAnswer(o, LastMintSlot(Deeds(Run(txs).log, tx.ix.parcel)), tx.slot))
  {
    CountersRefineHistory(txs, tx.ix.parcel);
    CheckRefusedAt(Run(txs).state, tx);
  }

  lemma CheckRefusedAt(s: State, tx: Tx)
    requires tx.ix.SeasonalCheck?
    ensures SeasonalCheckSpec(s, tx) == Aborted(AccountConstraint) <==> !VerifyParcel(s, tx.ix.parcel, tx.ix.cadastral)
    ensures VerifyParcel(s, tx.ix.parcel, tx.ix.cadastral) ==>
              CheckAnswer(SeasonalCheckSpec(s, tx), s.parcels[tx.ix.parcel].lastCertEpoch, tx.slot)
  {
  }

  // ----------------------------------------------------------------- liens

  /** What a client's registration is answered: the lender's own lien is in the way
      of the account, another's of the counter; an unverified parcel is never met. */
  lemma PledgeRefused(txs: seq<Tx>, c: Text, lender: Pubkey, amount: U64, sig: Bytes32, cert: Bytes32,
                      bumpE: U8, bumpI: U8, slot: U64, now: I64)
    ensures var s, p := Run(txs).state, ParcelPda(c);
            var o := Execute(s, Tx(ClientRegister(c, lender, amount, sig, cert, bumpE, bumpI), slot, now));
            var open := p in s.parcels && EncumbrancePda(p, lender) !in s.encumbrances;
            && (o == Aborted(AccountConstraint) <==> !open)
            && (o == Aborted(InvalidAmount) <==> open && amount == 0)
            && (o == Aborted(ActiveLienExists) <==> open && amount > 0 && LiveLiens(s, p) != {})
            && (o == Aborted(ArithmeticPanic)
                <==> open && amount > 0 && LiveLiens(s, p) == {} && TotalCount(s, p) == 65535)
            && (o.Committed? <==> open && amount > 0 && LiveLiens(s, p) == {} && TotalCount(s, p) < 65535)
  {
    RunConsistent(txs);
    assert CountsAgreeAt(Run(txs), ParcelPda(c));
  }

  /** A client's release is only ever refused for want of the account: whoever can
      derive it is its lender, and it is active. */
  lemma ReleaseRefused(txs: seq<Tx>, c: Text, lender: Pubkey, slot: U64, now: I64)
    ensures var s := Run(txs).state;
            var o := Execute(s, Tx(ClientRelease(c, lender), slot, now));
            if EncumbrancePda(ParcelPda(c), lender) in s.encumbrances then o.Committed? else o == Aborted(AccountConstraint)
  {
    RunConsistent(txs);
    ReleaseIffLive(Run(txs).state, c, lender, slot, now);
  }

  // ------------------------------------------------------------- the hook

  /** The hook's verdict on a registered parcel: fraud when its latest decisive
      assessment was below 20, else expired when its last three checks were empty. */
  lemma HookVerdictIff(txs: seq<Tx>, p: Address)
    requires p in Run(txs).state.parcels
    ensures var h := Deeds(Run(txs).log, p);
            var flagged := LatestDecisive(h).Some? && LatestDecisive(h).value < 20;
            var idle := |Cleared(h)| >= 3
                        && forall i :: |Cleared(h)| - 3 <= i < |Cleared(h)| ==> Cleared(h)[i] == 0;
            HookExecute(Run(txs).state, p) == if flagged then FraudFlagged else if idle then CertificateExpired else Accept
  {
    CountersRefineHistory(txs, p);
    var h := Deeds(Run(txs).log, p);
    TrailingZerosMeaning(Cleared(h), 3);
    LatestIsDecisive(h);
  }
}
