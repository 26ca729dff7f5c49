/** A parcel's small counters refine functions of its whole instruction history. */
module ParcelHistory {
  import opened Borsh
  import opened Accounts
  import opened TerraToken
  import opened LienRegistry
  import opened Protocol

  /** What happened to one parcel, in order: successful mints, seasonal checks
      and risk assessments. */
  datatype Deed = Minted(slot: U64) | Checked(slot: U64) | Assessed(score: U8)

  function DeedOf(e: Entry, p: Address): seq<Deed> {
    if e.tx.ix.parcel != p then []
    else match e.tx.ix
      case MintCertificate(_, _, _, _, _, _, _, _) => [Minted(e.tx.slot)]
      case SeasonalCheck(_, _, _) => [Checked(e.tx.slot)]
      case UpdateRiskAssessment(_, _, _, score, _, _) => [Assessed(score)]
      case _ => []
  }

  function Deeds(log: seq<Entry>, p: Address): seq<Deed> {
    if log == [] then [] else Deeds(log[..|log| - 1], p) + DeedOf(log[|log| - 1], p)
  }

  // --------------------------------------------------- functions of a history

  function Mints(h: seq<Deed>): nat {
    if h == [] then 0 else Mints(h[..|h| - 1]) + (if h[|h| - 1].Minted? then 1 else 0)
  }

  function MintsSinceCheck(h: seq<Deed>): nat {
    if h == [] || h[|h| - 1].Checked? then 0
    else MintsSinceCheck(h[..|h| - 1]) + (if h[|h| - 1].Minted? then 1 else 0)
  }

  /** For each check, in order, the mints since the check before it. */
  function Cleared(h: seq<Deed>): seq<nat> {
    if h == [] then []
    else if h[|h| - 1].Checked? then Cleared(h[..|h| - 1]) + [MintsSinceCheck(h[..|h| - 1])]
    else Cleared(h[..|h| - 1])
  }

  function TrailingZeros(ns: seq<nat>): nat {
    if ns == [] || ns[|ns| - 1] != 0 then 0 else 1 + TrailingZeros(ns[..|ns| - 1])
  }

  function Sum(ns: seq<nat>): nat {
    if ns == [] then 0 else Sum(ns[..|ns| - 1]) + ns[|ns| - 1]
  }

  function LastMintSlot(h: seq<Deed>): U64 {
    if h == [] then 0
    else if h[|h| - 1].Minted? then h[|h| - 1].slot
    else LastMintSlot(h[..|h| - 1])
  }

  /** The latest assessment below 20 or at least 40; those between decide nothing. */
  function LatestDecisive(h: seq<Deed>): Option<U8> {
    if h == [] then None
    else match h[|h| - 1]
      case Assessed(score) => if score < 20 || score >= 40 then Some(score) else LatestDecisive(h[..|h| - 1])
      case _ => LatestDecisive(h[..|h| - 1])
  }

  /** Every mint is either cleared by some check or still pending. */
  lemma {:induction false} MintsConserved(h: seq<Deed>)
    ensures Mints(h) == Sum(Cleared(h)) + MintsSinceCheck(h)
  {
    if h != [] {
      MintsConserved(h[..|h| - 1]);
      if h[|h| - 1].Checked? {
        assert Cleared(h)[..|Cleared(h)| - 1] == Cleared(h[..|h| - 1]);
      }
    }
  }

  lemma {:induction false} TrailingZerosMeaning(ns: seq<nat>, k: nat)
    ensures TrailingZeros(ns) >= k <==> k <= |ns| && forall i :: |ns| - k <= i < |ns| ==> ns[i] == 0
  {
    if ns != [] && ns[|ns| - 1] == 0 && k > 0 {
      TrailingZerosMeaning(ns[..|ns| - 1], k - 1);
    }
  }

  // -------------------------------------------------------------- refinement

  ghost predicate Reflects(c: ParcelConfig, h: seq<Deed>) {
    && c.ndviSubmissions == MintsSinceCheck(h)
    && c.dormantSeasons == (if TrailingZeros(Cleared(h)) < 0xFF then TrailingZeros(Cleared(h)) else 0xFF)
    && c.certCount == Mints(h)
    && c.lastCertEpoch == LastMintSlot(h)
    && c.riskFlag == (match LatestDecisive(h) case Some(score) => (if score < 20 then 1 else 0) case None => 0)
  }

  /** What a transaction adds to the history of p: nothing unless it commits. */
  function NewDeed(s: State, tx: Tx, p: Address): (d: seq<Deed>)
    ensures |d| <= 1 && (d != [] && d[0].Minted? ==> d[0].slot == tx.slot)
  {
    if Execute(s, tx).Committed? then DeedOf(Entry(tx, None), p) else []
  }

  lemma DeedsStep(w: World, tx: Tx, p: Address)
    ensures Deeds(Step(w, tx).log, p) == Deeds(w.log, p) + NewDeed(w.state, tx, p)
  {
    var o := Execute(w.state, tx);
    if o.Committed? {
      assert (w.log + [Entry(tx, o.event)])[..|w.log|] == w.log;
    }
  }

  lemma DeedAdded(h: seq<Deed>, d: Deed)
    ensures Mints(h + [d]) == Mints(h) + (if d.Minted? then 1 else 0)
    ensures MintsSinceCheck(h + [d])
            == if d.Checked? then 0 else MintsSinceCheck(h) + (if d.Minted? then 1 else 0)
    ensures Cleared(h + [d]) == Cleared(h) + (if d.Checked? then [MintsSinceCheck(h)] else [])
    ensures LastMintSlot(h + [d]) == if d.Minted? then d.slot else LastMintSlot(h)
    ensures LatestDecisive(h + [d])
            == if d.Assessed? && (d.score < 20 || d.score >= 40) then Some(d.score) else LatestDecisive(h)
    ensures TrailingZeros(Cleared(h) + [MintsSinceCheck(h)])
            == if MintsSinceCheck(h) == 0 then TrailingZeros(Cleared(h)) + 1 else 0
  {
    assert (h + [d])[..|h|] == h;
    assert (Cleared(h) + [MintsSinceCheck(h)])[..|Cleared(h)|] == Cleared(h);
  }

  lemma MintReflected(s: State, tx: Tx, h: seq<Deed>)
    requires tx.ix.MintCertificate? && MintCertificateSpec(s, tx).Committed? && Reflects(s.parcels[tx.ix.parcel], h)
    ensures Reflects(MintCertificateSpec(s, tx).state.parcels[tx.ix.parcel], h + [Minted(tx.slot)])
  {
    DeedAdded(h, Minted(tx.slot));
  }

  lemma CheckReflected(s: State, tx: Tx, h: seq<Deed>)
    requires tx.ix.SeasonalCheck? && SeasonalCheckSpec(s, tx).Committed? && Reflects(s.parcels[tx.ix.parcel], h)
    ensures Reflects(SeasonalCheckSpec(s, tx).state.parcels[tx.ix.parcel], h + [Checked(tx.slot)])
  {
    DeedAdded(h, Checked(tx.slot));
  }

  lemma AssessmentReflected(s: State, tx: Tx, h: seq<Deed>)
    requires tx.ix.UpdateRiskAssessment? && UpdateRiskAssessmentSpec(s, tx).Committed?
    requires Reflects(s.parcels[tx.ix.parcel], h)
    ensures Reflects(UpdateRiskAssessmentSpec(s, tx).state.parcels[tx.ix.parcel], h + [Assessed(tx.ix.aiScore)])
  {
    DeedAdded(h, Assessed(tx.ix.aiScore));
  }

  lemma NoDeedNoChange(s: State, tx: Tx, p: Address)
    requires p in s.parcels && NewDeed(s, tx, p) == []
    ensures p in After(s, tx).parcels && After(s, tx).parcels[p] == s.parcels[p]
  {
  }

  lemma DeedReflected(s: State, tx: Tx, p: Address, h: seq<Deed>)
    requires p in s.parcels && Reflects(s.parcels[p], h)
    ensures p in After(s, tx).parcels
    ensures Reflects(After(s, tx).parcels[p], h + NewDeed(s, tx, p))
  {
    if NewDeed(s, tx, p) == [] {
      assert h + NewDeed(s, tx, p) == h;
      NoDeedNoChange(s, tx, p);
    } else if tx.ix.MintCertificate? {
      MintReflected(s, tx, h);
    } else if tx.ix.SeasonalCheck? {
      CheckReflected(s, tx, h);
    } else {
      AssessmentReflected(s, tx, h);
    }
  }

  /** Over every run: each parcel's counters are the functions above of its
      history; in particular the u8 submission counter never wraps. */
  lemma {:induction false} CountersRefineHistory(txs: seq<Tx>, p: Address)
    ensures p !in Run(txs).state.parcels ==> Deeds(Run(txs).log, p) == []
    ensures p in Run(txs).state.parcels ==> Reflects(Run(txs).state.parcels[p], Deeds(Run(txs).log, p))
  {
    if txs != [] {
      var before, tx := txs[..|txs| - 1], txs[|txs| - 1];
      CountersRefineHistory(before, p);
      StepReflects(Run(before), tx, p);
    }
  }

  lemma StepReflects(w: World, tx: Tx, p: Address)
    requires p !in w.state.parcels ==> Deeds(w.log, p) == []
    requires p in w.state.parcels ==> Reflects(w.state.parcels[p], Deeds(w.log, p))
    ensures p !in Step(w, tx).state.parcels ==> Deeds(Step(w, tx).log, p) == []
    ensures p in Step(w, tx).state.parcels ==> Reflects(Step(w, tx).state.parcels[p], Deeds(Step(w, tx).log, p))
  {
    DeedsStep(w, tx, p);
    assert Step(w, tx).state == After(w.state, tx);
    if p in w.state.parcels {
      DeedReflected(w.state, tx, p, Deeds(w.log, p));
    } else {
      Unregistered(w.state, tx, p);
    }
  }

  lemma Unregistered(s: State, tx: Tx, p: Address)
    requires p !in s.parcels
    ensures NewDeed(s, tx, p) == []
    ensures p in After(s, tx).parcels ==> Reflects(After(s, tx).parcels[p], [])
  {
  }

  // ------------------------------------------------------------ consequences

  /** The certificate count is what past checks cleared plus what is pending, the
      submissions counter is what is pending, and the epoch is the latest mint's. */
  lemma CertificatesConserved(txs: seq<Tx>, p: Address)
    requires p in Run(txs).state.parcels
    ensures var c, h := Run(txs).state.parcels[p], Deeds(Run(txs).log, p);
            && c.certCount == Sum(Cleared(h)) + c.ndviSubmissions
            && c.certCount == Mints(h)
            && c.lastCertEpoch == LastMintSlot(h)
  {
    CountersRefineHistory(txs, p);
    MintsConserved(Deeds(Run(txs).log, p));
  }

  /** The transfer hook accepts exactly the parcels whose latest decisive
      assessment, if any, was at least 40 and whose last three checks were not
      all empty. */
  lemma HookAcceptsIff(txs: seq<Tx>, p: Address)
    requires p in Run(txs).state.parcels
    ensures var h := Deeds(Run(txs).log, p);
            var cleared := Cleared(h);
            var latest := LatestDecisive(h);
            HookExecute(Run(txs).state, p) == Accept
            <==> (latest == None || latest.value >= 40)
                 && !(|cleared| >= 3 && forall i :: |cleared| - 3 <= i < |cleared| ==> cleared[i] == 0)
    ensures Run(txs).state.parcels[p].riskFlag in {0, 1}
  {
    CountersRefineHistory(txs, p);
    var h := Deeds(Run(txs).log, p);
    TrailingZerosMeaning(Cleared(h), 3);
    LatestIsDecisive(h);
  }

  lemma {:induction false} LatestIsDecisive(h: seq<Deed>)
    ensures LatestDecisive(h).Some? ==> LatestDecisive(h).value < 20 || LatestDecisive(h).value >= 40
  {
    if h != [] {
      LatestIsDecisive(h[..|h| - 1]);
    }
  }

  /** Solana's clock over a run: slots are positive and never go back. */
  ghost predicate ClockRuns(txs: seq<Tx>) {
    && (forall i :: 0 <= i < |txs| ==> txs[i].slot > 0)
    && (forall i, j :: 0 <= i <= j < |txs| ==> txs[i].slot <= txs[j].slot)
  }

  /** Every mint so far happened at a positive slot no later than `now`, and the
      last one is the latest. */
  ghost predicate MintsBy(h: seq<Deed>, now: U64) {
    && LastMintSlot(h) <= now
    && forall i :: 0 <= i < |h| && h[i].Minted? ==> 0 < h[i].slot <= LastMintSlot(h)
  }

  lemma {:induction false} MintSlots(txs: seq<Tx>, p: Address, now: U64)
    requires ClockRuns(txs) && (txs != [] ==> txs[|txs| - 1].slot <= now)
    ensures MintsBy(Deeds(Run(txs).log, p), now)
  {
    if txs != [] {
      var before, tx := txs[..|txs| - 1], txs[|txs| - 1];
      var w := Run(before);
      MintSlots(before, p, tx.slot);
      MintsByStep(Deeds(w.log, p), NewDeed(w.state, tx, p), tx.slot, now);
      DeedsStep(w, tx, p);
    }
  }

  lemma MintsByStep(h: seq<Deed>, d: seq<Deed>, since: U64, now: U64)
    requires MintsBy(h, since) && 0 < since <= now
    requires |d| <= 1 && (d != [] && d[0].Minted? ==> d[0].slot == since)
    ensures MintsBy(h + d, now)
  {
    if d == [] {
      assert h + d == h;
    } else {
      DeedAdded(h, d[0]);
    }
  }

  /** Every check comes a full season, 90 days of 216000 slots, after each mint
      before it. */
  ghost predicate Gated(h: seq<Deed>) {
    forall i, j :: 0 <= i < j < |h| && h[i].Minted? && h[j].Checked? ==> h[j].slot >= h[i].slot + 19_440_000
  }

  /** No successful check falls within a season of any earlier mint. */
  lemma {:induction false} ChecksAreGated(txs: seq<Tx>, p: Address)
    requires ClockRuns(txs)
    ensures Gated(Deeds(Run(txs).log, p))
  {
    if txs != [] {
      var before, tx := txs[..|txs| - 1], txs[|txs| - 1];
      var w := Run(before);
      ChecksAreGated(before, p);
      MintSlots(before, p, tx.slot);
      CountersRefineHistory(before, p);
      GatedStep(w.state, tx, p, Deeds(w.log, p));
      DeedsStep(w, tx, p);
    }
  }

  lemma GatedStep(s: State, tx: Tx, p: Address, h: seq<Deed>)
    requires Gated(h) && MintsBy(h, tx.slot) && (p in s.parcels ==> Reflects(s.parcels[p], h))
    ensures Gated(h + NewDeed(s, tx, p))
  {
    var d := NewDeed(s, tx, p);
    if d == [] {
      assert h + d == h;
    } else if d[0].Checked? {
      CheckWaits(s, tx, p);
    }
  }

  lemma CheckWaits(s: State, tx: Tx, p: Address)
    requires NewDeed(s, tx, p) != [] && NewDeed(s, tx, p)[0].Checked?
    ensures p in s.parcels && NewDeed(s, tx, p) == [Checked(tx.slot)]
    ensures s.parcels[p].lastCertEpoch == 0 || tx.slot >= s.parcels[p].lastCertEpoch + EPOCHS_PER_SEASON
  {
  }

  /** A check commits exactly when the parcel was never minted for, or a full
      season has passed since its last mint. */
  lemma CheckCommitsIff(txs: seq<Tx>, c: Text, lienAccount: Option<Address>, slot: U64, now: I64)
    requires ParcelPda(c) in Run(txs).state.parcels
    ensures var last := LastMintSlot(Deeds(Run(txs).log, ParcelPda(c)));
            Execute(Run(txs).state, Tx(SeasonalCheck(ParcelPda(c), c, lienAccount), slot, now)).Committed?
            <==> last == 0 || slot >= last + 19_440_000
  {
    CountersRefineHistory(txs, ParcelPda(c));
  }

  /** A mint by the right parties commits exactly while the parcel is not
      flagged, fewer than 65535 certificates exist and fewer than 255 were
      minted since the last check. */
  lemma MintCommitsIff(txs: seq<Tx>, c: Text, season: Text, score: U16, mint: Pubkey, slot: U64, now: I64)
    requires ParcelPda(c) in Run(txs).state.parcels
    ensures var p := Run(txs).state.parcels[ParcelPda(c)];
            var h := Deeds(Run(txs).log, ParcelPda(c));
            var ix := MintCertificate(ParcelPda(c), p.mintAuthority, p.owner, c, season, score, mint, true);
            Execute(Run(txs).state, Tx(ix, slot, now)).Committed?
            <==> !(LatestDecisive(h).Some? && LatestDecisive(h).value < 20)
                 && Mints(h) < 0xFFFF && MintsSinceCheck(h) < 0xFF
  {
    CountersRefineHistory(txs, ParcelPda(c));
    RunConsistent(txs);
    var p := Run(txs).state.parcels[ParcelPda(c)];
    var ix := MintCertificate(ParcelPda(c), p.mintAuthority, p.owner, c, season, score, mint, true);
    MintCommitsAt(Run(txs).state, Tx(ix, slot, now));
  }

  lemma MintCommitsAt(s: State, tx: Tx)
    requires tx.ix.MintCertificate? && VerifyParcel(s, tx.ix.parcel, tx.ix.cadastral) && tx.ix.tokenCallsOk
    requires var p := s.parcels[tx.ix.parcel];
             p.kycVerified && p.mintAuthority == tx.ix.mintAuthority && p.owner == tx.ix.owner
    ensures var p := s.parcels[tx.ix.parcel];
            MintCertificateSpec(s, tx).Committed?
            <==> p.riskFlag == 0 && p.certCount < 0xFFFF && p.ndviSubmissions < 0xFF
  {
  }
}
