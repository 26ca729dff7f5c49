/** What a lien's account says, from the SDK's bytes in to the SDK's reading out. */
module LienRecords {
  import opened Borsh
  import opened Accounts
  import opened TerraToken
  import opened LienRegistry
  import opened Protocol
  import opened Layout
  import opened InstructionData
  import SdkAccounts

  // ----------------------------------------------------------- over every run

  /** The log holds the registration this live account comes from. */
  ghost predicate Recorded(w: World, a: Address)
    requires a in w.state.encumbrances
  {
    exists i :: 0 <= i < |w.log| && RecordedBy(w, a, w.log[i].tx)
  }

  ghost predicate RecordedBy(w: World, a: Address, tx: Tx)
    requires a in w.state.encumbrances
  {
    && tx.ix.RegisterEncumbrance? && tx.ix.encumbrance == a && tx.ix.parcel in w.state.parcels
    && Records(w.state.encumbrances[a], tx, w.state.parcels[tx.ix.parcel].egissHash)
  }

  ghost predicate AllRecorded(w: World) {
    forall a <- w.state.encumbrances :: Recorded(w, a)
  }

  /** Over every run, each live encumbrance account still says exactly what its
      registration said: parties, amount, both notary hashes, the parcel's snapshot
      hash and the time. */
  lemma {:induction false} LiveLiensAreRecorded(txs: seq<Tx>)
    ensures AllRecorded(Run(txs))
  {
    if txs != [] {
      LiveLiensAreRecorded(txs[..|txs| - 1]);
      StepKeepsRecords(Run(txs[..|txs| - 1]), txs[|txs| - 1]);
    }
  }

  lemma StepKeepsRecords(w: World, tx: Tx)
    requires AllRecorded(w)
    ensures AllRecorded(Step(w, tx))
  {
    var w', o := Step(w, tx), Execute(w.state, tx);
    if o.Committed? {
      forall p | p in w.state.parcels
        ensures p in w'.state.parcels && w'.state.parcels[p].egissHash == w.state.parcels[p].egissHash
      {
        ParcelKept(w.state, tx, p);
      }
      assert w'.log[|w.log|].tx == tx;
      forall a | a in w'.state.encumbrances
        ensures Recorded(w', a)
      {
        if tx.ix.RegisterEncumbrance? && a == tx.ix.encumbrance {
          assert RecordedBy(w', a, w'.log[|w.log|].tx);
        } else {
          EncumbranceKept(w.state, tx, a);
          var i :| 0 <= i < |w.log| && RecordedBy(w, a, w.log[i].tx);
          assert w'.log[i] == w.log[i] && RecordedBy(w', a, w'.log[i].tx);
        }
      }
    }
  }

  lemma EncumbranceKept(s: State, tx: Tx, a: Address)
    requires Execute(s, tx).Committed? && a in After(s, tx).encumbrances
    requires !(tx.ix.RegisterEncumbrance? && a == tx.ix.encumbrance)
    ensures a in s.encumbrances && After(s, tx).encumbrances[a] == s.encumbrances[a]
  {
  }

  /** What a parcel's registration wrote and no other instruction writes. */
  predicate SameIdentity(p: ParcelConfig, q: ParcelConfig) {
    && p.owner == q.owner && p.mintAuthority == q.mintAuthority && p.cadastral == q.cadastral
    && p.areaHa == q.areaHa && p.landClass == q.landClass && p.kycVerified == q.kycVerified
    && p.kycMethod == q.kycMethod && p.egissHash == q.egissHash && p.registeredAt == q.registeredAt && p.bump == q.bump
  }

  lemma ParcelKept(s: State, tx: Tx, p: Address)
    requires p in s.parcels
    ensures p in After(s, tx).parcels && SameIdentity(s.parcels[p], After(s, tx).parcels[p])
  {
    if tx.ix.parcel != p {
      WritesOnlyItsParcel(s, tx);
      assert Same(s.parcels, After(s, tx).parcels, p);
    } else if !IsTokenInstruction(tx.ix) {
      assert After(s, tx).parcels == s.parcels;
    } else {
      OwnParcelKept(s, tx);
    }
  }

  lemma OwnParcelKept(s: State, tx: Tx)
    requires tx.ix.parcel in s.parcels && IsTokenInstruction(tx.ix)
    ensures tx.ix.parcel in After(s, tx).parcels
    ensures SameIdentity(s.parcels[tx.ix.parcel], After(s, tx).parcels[tx.ix.parcel])
  {
    match tx.ix
    case RegisterParcel(_, _, _, _, _, _, _) => assert !Execute(s, tx).Committed?;
    case MintCertificate(_, _, _, _, _, _, _, _) => MintKeeps(s, tx);
    case SeasonalCheck(_, _, _) => CheckKeeps(s, tx);
    case UpdateRiskAssessment(_, _, _, _, _, _) => RatingKeeps(s, tx);
  }

  lemma MintKeeps(s: State, tx: Tx)
    requires tx.ix.parcel in s.parcels && tx.ix.MintCertificate?
    ensures tx.ix.parcel in After(s, tx).parcels
    ensures SameIdentity(s.parcels[tx.ix.parcel], After(s, tx).parcels[tx.ix.parcel])
  {
  }

  lemma CheckKeeps(s: State, tx: Tx)
    requires tx.ix.parcel in s.parcels && tx.ix.SeasonalCheck?
    ensures tx.ix.parcel in After(s, tx).parcels
    ensures SameIdentity(s.parcels[tx.ix.parcel], After(s, tx).parcels[tx.ix.parcel])
  {
  }

  lemma RatingKeeps(s: State, tx: Tx)
    requires tx.ix.parcel in s.parcels && tx.ix.UpdateRiskAssessment?
    ensures tx.ix.parcel in After(s, tx).parcels
    ensures SameIdentity(s.parcels[tx.ix.parcel], After(s, tx).parcels[tx.ix.parcel])
  {
  }

  /** Over every run, and whatever runs after it: a registered parcel stays, with the
      identity it was registered with. */
  lemma {:induction false} IdentityIsFinal(txs: seq<Tx>, more: seq<Tx>, p: Address)
    requires p in Run(txs).state.parcels
    ensures p in Run(txs + more).state.parcels
    ensures SameIdentity(Run(txs).state.parcels[p], Run(txs + more).state.parcels[p])
  {
    if more == [] {
      assert txs + more == txs;
    } else {
      var init, last := more[..|more| - 1], more[|more| - 1];
      IdentityIsFinal(txs, init, p);
      assert (txs + more)[..|txs + more| - 1] == txs + init;
      ParcelKept(Run(txs + init).state, last, p);
      assert Run(txs + more).state == After(Run(txs + init).state, last);
    }
  }

  // -------------------------------------------------------------- end to end

  /** The instruction the program sees in a client's data, with derived accounts. */
  function Received(data: Bytes, lender: Pubkey, bumpE: U8, bumpI: U8): Option<Instruction> {
    match DecodeEncumbranceArgs(data)
    case None => None
    case Some(a) => Some(ClientRegister(a.cadastral, lender, a.amount, a.notarySigHash, a.notaryCertHash, bumpE, bumpI))
  }

  /** Whatever a lender hands the SDK comes back from the SDK: when the transaction
      with those bytes commits, the serialized account reads as that lender's active
      lien on that cadastral, of that amount, with the signature hash and the
      certificate hash in their own places, the parcel's snapshot and the time. */
  lemma PledgeReadsBack(s: State, data: Bytes, cadastral: Text, lender: Pubkey, amount: U64, sig: Bytes32, cert: Bytes32,
                        bumpE: U8, bumpI: U8, slot: U64, now: I64, render: Render, disc: Bytes8, rest: Bytes,
                        v: SdkAccounts.EncumbranceData, status: U8)
    requires data == EncumbranceBytes(cadastral, amount, sig + cert)
    requires ParcelPda(cadastral) in s.parcels && Received(data, lender, bumpE, bumpI).Some?
    requires var tx := Tx(Received(data, lender, bumpE, bumpI).value, slot, now);
             var a := EncumbrancePda(ParcelPda(cadastral), lender);
             && Execute(s, tx).Committed? && a in After(s, tx).encumbrances
             && SdkAccounts.EncumbranceBytes(v, status)
                <= (disc + EncumbranceFields(After(s, tx).encumbrances[a], render) + rest)[SdkAccounts.DISCRIMINATOR_SIZE..]
             && v.status == SdkAccounts.StatusOf(status)
    ensures v == SdkAccounts.EncumbranceData(
                   parcelPda := render(ParcelPda(cadastral)), lender := lender, amount := amount,
                   notarySigHash := sig, notaryCertHash := cert,
                   egissHash := s.parcels[ParcelPda(cadastral)].egissHash,
                   registeredAt := now, releasedAt := 0, status := SdkAccounts.Active, bump := bumpE)
  {
    EncumbranceArgsDecode(cadastral, amount, sig + cert);
    assert (sig + cert)[..32] == sig && (sig + cert)[32..64] == cert;
    var ix := ClientRegister(cadastral, lender, amount, sig, cert, bumpE, bumpI);
    assert Received(data, lender, bumpE, bumpI) == Some(ix);
    var tx := Tx(ix, slot, now);
    RegistrationRecorded(s, tx);
    var e := After(s, tx).encumbrances[ix.encumbrance];
    SdkAccounts.EncumbranceReadsBack(e, render, disc, rest, v, status);
  }

  lemma RegistrationRecorded(s: State, tx: Tx)
    requires tx.ix.RegisterEncumbrance? && Execute(s, tx).Committed?
    ensures tx.ix.encumbrance in After(s, tx).encumbrances && tx.ix.parcel in s.parcels
    ensures Records(After(s, tx).encumbrances[tx.ix.encumbrance], tx, s.parcels[tx.ix.parcel].egissHash)
  {
  }
}
