/** The lien flag a seasonal check reports, and which account makes it right. */
module DormantEvents {
  import opened Borsh
  import opened Accounts
  import opened TerraToken
  import opened LienRegistry
  import opened Protocol

  ghost predicate EventRight(s: State, c: Text, o: Outcome) {
    o.Committed? && o.event.Some? ==>
      o.event.value.ParcelDormant? && (o.event.value.hasActiveLien <==> LiveLiens(s, ParcelPda(c)) != {})
  }

  /** Any check of parcel c, handed `account`, that reports dormancy reports
      exactly whether the parcel has a live lien. */
  ghost predicate FlagRight(s: State, c: Text, account: Option<Address>) {
    forall slot: U64, now: I64 ::
      EventRight(s, c, SeasonalCheckSpec(s, Tx(SeasonalCheck(ParcelPda(c), c, account), slot, now)))
  }

  /** Handed the parcel's own index the flag is right in every reachable state,
      also when that index was never created. */
  lemma OwnIndexIsRight(txs: seq<Tx>, c: Text)
    ensures FlagRight(Run(txs).state, c, Some(LienIndexPda(ParcelPda(c))))
  {
    RunConsistent(txs);
    assert CountsAgreeAt(Run(txs), ParcelPda(c));
    assert LienIndexPda(ParcelPda(c)) !in Run(txs).state.encumbrances;
  }

  const QUIET_LENDER: Pubkey := NO_HASH

  /** After a parcel and then a lien by a lender whose key starts with 0 are
      registered, any other account, or none, makes the flag wrong: the check
      reports no lien on a pledged parcel. */
  lemma OtherAccountIsWrong(c: Text, account: Option<Address>)
    requires |c| <= MAX_CADASTRAL_LEN && account != Some(LienIndexPda(ParcelPda(c)))
    ensures !FlagRight(Run(PledgeRun(c, QUIET_LENDER)).state, c, account)
  {
    PledgeRunCommits(c, QUIET_LENDER);
    var s, p := Run(PledgeRun(c, QUIET_LENDER)).state, ParcelPda(c);
    assert EncumbrancePda(p, QUIET_LENDER) in LiveLiens(s, p);
    var o := SeasonalCheckSpec(s, Tx(SeasonalCheck(p, c, account), 1, 0));
    assert o.Committed? && o.event.Some? && !o.event.value.hasActiveLien;
    assert !EventRight(s, c, o);
  }

  /** Exactly one account makes the dormancy flag right in every reachable state:
      the parcel's own lien index, which the program does not insist on. */
  lemma FlagRightIffOwnIndex(c: Text, account: Option<Address>)
    requires |c| <= MAX_CADASTRAL_LEN
    ensures (forall txs :: FlagRight(Run(txs).state, c, account))
            <==> account == Some(LienIndexPda(ParcelPda(c)))
  {
    if account == Some(LienIndexPda(ParcelPda(c))) {
      forall txs
        ensures FlagRight(Run(txs).state, c, account)
      {
        OwnIndexIsRight(txs, c);
      }
    } else {
      OtherAccountIsWrong(c, account);
    }
  }
}
