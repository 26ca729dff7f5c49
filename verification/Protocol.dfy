/** Runs of the chain, and what every reachable state satisfies. */
module Protocol {
  import opened Borsh
  import opened Accounts
  import opened TerraToken
  import opened LienRegistry

  /** A committed transaction and the event it emitted. */
  datatype Entry = Entry(tx: Tx, event: Option<Event>)

  datatype World = World(state: State, log: seq<Entry>)

  function Step(w: World, tx: Tx): World {
    match Execute(w.state, tx)
    case Committed(s, event) => World(s, w.log + [Entry(tx, event)])
    case Aborted(_) => w
  }

  function Run(txs: seq<Tx>): World {
    if txs == [] then World(GENESIS, []) else Step(Run(txs[..|txs| - 1]), txs[|txs| - 1])
  }

  ghost predicate Reachable(w: World) {
    exists txs :: w == Run(txs)
  }

  // ------------------------------------------------------------ vocabulary

  /** Live encumbrance accounts of a parcel. */
  function LiveLiens(s: State, parcel: Address): set<Address> {
    set a | a in s.encumbrances && a.EncumbrancePda? && a.parcel == parcel
  }

  function ActiveCount(s: State, parcel: Address): nat {
    IndexOrFresh(s, LienIndexPda(parcel)).activeLienCount
  }

  function TotalCount(s: State, parcel: Address): nat {
    IndexOrFresh(s, LienIndexPda(parcel)).totalLienCount
  }

  function Registrations(log: seq<Entry>, parcel: Address): nat {
    if log == [] then 0
    else
      var last := log[|log| - 1].tx.ix;
      Registrations(log[..|log| - 1], parcel)
      + (if last.RegisterEncumbrance? && last.parcel == parcel then 1 else 0)
  }

  function Releases(log: seq<Entry>, parcel: Address): nat {
    if log == [] then 0
    else
      var last := log[|log| - 1].tx.ix;
      Releases(log[..|log| - 1], parcel)
      + (if last.ReleaseEncumbrance? && last.parcel == parcel then 1 else 0)
  }

  /** The account holds what the registering transaction said, with the parcel's
      snapshot hash at that time. */
  predicate Records(e: Encumbrance, tx: Tx, egissHash: Bytes32)
    requires tx.ix.RegisterEncumbrance?
  {
    && e.parcelPda == tx.ix.parcel && e.lender == tx.ix.lender && e.amount == tx.ix.amount > 0
    && e.notarySigHash == tx.ix.notarySigHash && e.notaryCertHash == tx.ix.notaryCertHash
    && e.egissHash == egissHash && e.registeredAt == tx.unixTime && e.releasedAt == 0
    && e.status == 0 && e.bump == tx.ix.encumbranceBump
  }

  // ------------------------------------------------------------- invariant

  ghost predicate ParcelsWellFormed(s: State) {
    forall a <- s.parcels :: a == ParcelPda(s.parcels[a].cadastral) && s.parcels[a].kycVerified
                             && |s.parcels[a].cadastral| <= MAX_CADASTRAL_LEN
  }

  ghost predicate EncumbrancesWellFormed(s: State) {
    forall a <- s.encumbrances ::
      && a.EncumbrancePda? && a.parcel in s.parcels && LienIndexPda(a.parcel) in s.indexes
      && s.encumbrances[a].parcelPda == a.parcel && s.encumbrances[a].lender == a.lender
      && s.encumbrances[a].status == STATUS_ACTIVE && s.encumbrances[a].amount > 0
  }

  ghost predicate IndexesWellFormed(s: State) {
    forall a <- s.indexes :: a.LienIndexPda? && a.parcel in s.parcels && s.indexes[a].parcelPda == a.parcel
  }

  ghost predicate CountsAgree(w: World) {
    forall p: Address :: CountsAgreeAt(w, p)
  }

  ghost predicate Consistent(w: World) {
    ParcelsWellFormed(w.state) && EncumbrancesWellFormed(w.state) && IndexesWellFormed(w.state) && CountsAgree(w)
  }

  lemma LogStep(log: seq<Entry>, e: Entry, p: Address)
    ensures Registrations(log + [e], p)
            == Registrations(log, p) + (if e.tx.ix.RegisterEncumbrance? && e.tx.ix.parcel == p then 1 else 0)
    ensures Releases(log + [e], p)
            == Releases(log, p) + (if e.tx.ix.ReleaseEncumbrance? && e.tx.ix.parcel == p then 1 else 0)
  {
    assert (log + [e])[..|log|] == log;
  }

  /** The u8 counter of a parcel counts its live accounts, of which there is at
      most one; the u16 counter counts its successful registrations. */
  ghost predicate CountsAgreeAt(w: World, p: Address) {
    && ActiveCount(w.state, p) == |LiveLiens(w.state, p)| <= 1
    && TotalCount(w.state, p) == Registrations(w.log, p)
    && Registrations(w.log, p) == Releases(w.log, p) + ActiveCount(w.state, p)
  }

  lemma RegisterKeepsCounts(w: World, tx: Tx, p: Address)
    requires IndexesWellFormed(w.state) && CountsAgreeAt(w, p)
    requires tx.ix.RegisterEncumbrance? && RegisterEncumbranceSpec(w.state, tx).Committed?
    ensures CountsAgreeAt(Step(w, tx), p)
  {
    var o := RegisterEncumbranceSpec(w.state, tx);
    LogStep(w.log, Entry(tx, o.event), p);
    if p == tx.ix.parcel {
      assert LiveLiens(o.state, p) == LiveLiens(w.state, p) + {tx.ix.encumbrance};
    } else {
      assert LiveLiens(o.state, p) == LiveLiens(w.state, p);
    }
  }

  lemma ReleaseKeepsCounts(w: World, tx: Tx, p: Address)
    requires CountsAgreeAt(w, p)
    requires tx.ix.ReleaseEncumbrance? && ReleaseEncumbranceSpec(w.state, tx).Committed?
    ensures CountsAgreeAt(Step(w, tx), p)
  {
    var o := ReleaseEncumbranceSpec(w.state, tx);
    LogStep(w.log, Entry(tx, o.event), p);
    if p == tx.ix.parcel {
      assert tx.ix.encumbrance in LiveLiens(w.state, p);
      assert LiveLiens(o.state, p) == LiveLiens(w.state, p) - {tx.ix.encumbrance};
    } else {
      assert LiveLiens(o.state, p) == LiveLiens(w.state, p);
    }
  }

  lemma ParcelStepKeepsCounts(w: World, tx: Tx, p: Address)
    requires CountsAgreeAt(w, p) && Execute(w.state, tx).Committed?
    requires !tx.ix.RegisterEncumbrance? && !tx.ix.ReleaseEncumbrance?
    ensures CountsAgreeAt(Step(w, tx), p)
  {
    var o := Execute(w.state, tx);
    assert o.state.encumbrances == w.state.encumbrances && o.state.indexes == w.state.indexes;
    LogStep(w.log, Entry(tx, o.event), p);
    assert LiveLiens(o.state, p) == LiveLiens(w.state, p);
  }

  lemma StepKeepsCounts(w: World, tx: Tx)
    requires Consistent(w)
    ensures CountsAgree(Step(w, tx))
  {
    if Execute(w.state, tx).Committed? {
      forall p: Address
        ensures CountsAgreeAt(Step(w, tx), p)
      {
        assert CountsAgreeAt(w, p);
        if tx.ix.RegisterEncumbrance? {
          RegisterKeepsCounts(w, tx, p);
        } else if tx.ix.ReleaseEncumbrance? {
          ReleaseKeepsCounts(w, tx, p);
        } else {
          ParcelStepKeepsCounts(w, tx, p);
        }
      }
    }
  }

  /** A step writes at most its own parcel's account, and writes it well-formed. */
  lemma ParcelWritten(s: State, tx: Tx)
    requires ParcelsWellFormed(s)
    ensures var t, p := After(s, tx), tx.ix.parcel;
            t.parcels == s.parcels
            || (&& p in t.parcels && t.parcels == s.parcels[p := t.parcels[p]]
                && p == ParcelPda(t.parcels[p].cadastral) && t.parcels[p].kycVerified
                && |t.parcels[p].cadastral| <= MAX_CADASTRAL_LEN)
  {
    assert tx.ix.parcel in s.parcels ==>
        var p := s.parcels[tx.ix.parcel];
        tx.ix.parcel == ParcelPda(p.cadastral) && p.kycVerified && |p.cadastral| <= MAX_CADASTRAL_LEN;
  }

  lemma StepKeepsParcels(s: State, tx: Tx)
    requires ParcelsWellFormed(s)
    ensures ParcelsWellFormed(After(s, tx)) && s.parcels.Keys <= After(s, tx).parcels.Keys
  {
    ParcelWritten(s, tx);
  }

  lemma IndexWritten(s: State, tx: Tx)
    requires IndexesWellFormed(s)
    ensures var t, i := After(s, tx), LienIndexPda(tx.ix.parcel);
            t.indexes == s.indexes
            || (&& i in t.indexes && t.indexes == s.indexes[i := t.indexes[i]]
                && tx.ix.parcel in s.parcels && t.parcels == s.parcels && t.indexes[i].parcelPda == tx.ix.parcel)
  {
    assert LienIndexPda(tx.ix.parcel) in s.indexes ==>
        s.indexes[LienIndexPda(tx.ix.parcel)].parcelPda == tx.ix.parcel;
  }

  lemma StepKeepsIndexes(s: State, tx: Tx)
    requires ParcelsWellFormed(s) && IndexesWellFormed(s)
    ensures IndexesWellFormed(After(s, tx)) && s.indexes.Keys <= After(s, tx).indexes.Keys
  {
    StepKeepsParcels(s, tx);
    IndexWritten(s, tx);
  }

  lemma StepKeepsEncumbrances(s: State, tx: Tx)
    requires EncumbrancesWellFormed(s)
    ensures EncumbrancesWellFormed(After(s, tx))
  {
    if tx.ix.RegisterEncumbrance? || tx.ix.ReleaseEncumbrance? {
    } else {
      assert After(s, tx).encumbrances == s.encumbrances && After(s, tx).indexes == s.indexes;
      assert s.parcels.Keys <= After(s, tx).parcels.Keys;
    }
  }

  lemma StepConsistent(w: World, tx: Tx)
    requires Consistent(w)
    ensures Consistent(Step(w, tx))
  {
    StepKeepsParcels(w.state, tx);
    StepKeepsIndexes(w.state, tx);
    StepKeepsEncumbrances(w.state, tx);
    StepKeepsCounts(w, tx);
    assert Step(w, tx).state == After(w.state, tx);
  }

  /** Double-pledge prevention, over every run of the two programs. */
  lemma {:induction false} RunConsistent(txs: seq<Tx>)
    ensures Consistent(Run(txs))
  {
    if txs == [] {
      forall p: Address
        ensures CountsAgreeAt(Run(txs), p)
      {
        assert LiveLiens(GENESIS, p) == {};
      }
    } else {
      RunConsistent(txs[..|txs| - 1]);
      StepConsistent(Run(txs[..|txs| - 1]), txs[|txs| - 1]);
    }
  }

  /** At most one live encumbrance account per parcel, whoever the lenders are. */
  lemma AtMostOneLiveLien(txs: seq<Tx>, a: Address, b: Address)
    requires a in Run(txs).state.encumbrances && b in Run(txs).state.encumbrances
    requires a.EncumbrancePda? && b.EncumbrancePda? && a.parcel == b.parcel
    ensures a == b
  {
    RunConsistent(txs);
    OneLiveLien(Run(txs), a, b);
  }

  lemma OneLiveLien(w: World, a: Address, b: Address)
    requires Consistent(w) && a in w.state.encumbrances && b in w.state.encumbrances
    requires a.EncumbrancePda? && b.EncumbrancePda? && a.parcel == b.parcel
    ensures a == b
  {
    var live := LiveLiens(w.state, a.parcel);
    assert CountsAgreeAt(w, a.parcel);
    assert a in live && b in live;
    assert |live - {a}| == |live| - 1 == 0;
    assert live - {a} == {};
  }

  // ------------------------------------------------- what a client can rely on

  /** The registration a client builds, deriving every address from its seeds. */
  function ClientRegister(cadastral: Text, lender: Pubkey, amount: U64, sig: Bytes32, cert: Bytes32,
                          bumpE: U8, bumpI: U8): Instruction
  {
    var p := ParcelPda(cadastral);
    RegisterEncumbrance(p, EncumbrancePda(p, lender), LienIndexPda(p), lender, cadastral, amount,
                        sig, cert, bumpE, bumpI)
  }

  function ClientRelease(cadastral: Text, lender: Pubkey): Instruction {
    var p := ParcelPda(cadastral);
    ReleaseEncumbrance(p, EncumbrancePda(p, lender), LienIndexPda(p), lender)
  }

  /** In every reachable state a registration commits exactly when the parcel
      exists and is free of any lender's lien, the amount is positive and the
      u16 total is not exhausted. */
  lemma RegisterCommitsIffFree(txs: seq<Tx>, c: Text, lender: Pubkey, amount: U64, sig: Bytes32, cert: Bytes32,
                               bumpE: U8, bumpI: U8, slot: U64, now: I64)
    ensures var s := Run(txs).state;
            var p := ParcelPda(c);
            Execute(s, Tx(ClientRegister(c, lender, amount, sig, cert, bumpE, bumpI), slot, now)).Committed?
            <==> p in s.parcels && amount > 0 && TotalCount(s, p) < 0xFFFF
                 && forall l: Pubkey :: EncumbrancePda(p, l) !in s.encumbrances
  {
    RunConsistent(txs);
    var s, p := Run(txs).state, ParcelPda(c);
    assert CountsAgreeAt(Run(txs), p);
    if forall l: Pubkey :: EncumbrancePda(p, l) !in s.encumbrances {
      assert LiveLiens(s, p) == {};
    } else {
      var l: Pubkey :| EncumbrancePda(p, l) in s.encumbrances;
      assert EncumbrancePda(p, l) in LiveLiens(s, p);
    }
  }

  /** The counter guard makes the `init` constraint redundant: whenever the count
      is zero no lender's encumbrance account exists for the parcel. */
  lemma ZeroCountImpliesInit(txs: seq<Tx>, parcel: Address, lender: Pubkey)
    requires ActiveCount(Run(txs).state, parcel) == 0
    ensures EncumbrancePda(parcel, lender) !in Run(txs).state.encumbrances
  {
    RunConsistent(txs);
    var s := Run(txs).state;
    assert CountsAgreeAt(Run(txs), parcel);
    assert LiveLiens(s, parcel) == {};
    assert EncumbrancePda(parcel, lender) in s.encumbrances
           ==> EncumbrancePda(parcel, lender) in LiveLiens(s, parcel);
  }

  lemma LiveIffMember(w: World, c: Text, lender: Pubkey)
    requires Consistent(w)
    ensures var p := ParcelPda(c);
            EncumbrancePda(p, lender) in w.state.encumbrances ==>
              ActiveCount(w.state, p) == 1 && LiveLiens(w.state, p) == {EncumbrancePda(p, lender)}
  {
    var p := ParcelPda(c);
    var a := EncumbrancePda(p, lender);
    assert CountsAgreeAt(w, p);
    if a in w.state.encumbrances {
      assert a in LiveLiens(w.state, p);
      assert |LiveLiens(w.state, p) - {a}| == 0;
      assert LiveLiens(w.state, p) - {a} == {};
    }
  }

  lemma ReleaseIffLive(s: State, c: Text, lender: Pubkey, slot: U64, now: I64)
    requires EncumbrancesWellFormed(s)
    ensures ReleaseEncumbranceSpec(s, Tx(ClientRelease(c, lender), slot, now)).Committed?
            <==> EncumbrancePda(ParcelPda(c), lender) in s.encumbrances
  {
  }

  /** In every reachable state a release commits exactly when that lender's
      account is live. */
  lemma ReleaseCommitsIffLive(txs: seq<Tx>, c: Text, lender: Pubkey, slot: U64, now: I64)
    ensures Execute(Run(txs).state, Tx(ClientRelease(c, lender), slot, now)).Committed?
            <==> EncumbrancePda(ParcelPda(c), lender) in Run(txs).state.encumbrances
  {
    RunConsistent(txs);
    ReleaseIffLive(Run(txs).state, c, lender, slot, now);
  }

  /** A committed release takes the count from one to zero, so the subtraction
      never saturates, and leaves no live lien on the parcel. */
  lemma ReleaseNeverSaturates(txs: seq<Tx>, c: Text, lender: Pubkey, slot: U64, now: I64)
    requires EncumbrancePda(ParcelPda(c), lender) in Run(txs).state.encumbrances
    ensures var s, p := Run(txs).state, ParcelPda(c);
            var s' := After(s, Tx(ClientRelease(c, lender), slot, now));
            ActiveCount(s, p) == 1 && ActiveCount(s', p) == 0 && LiveLiens(s', p) == {}
  {
    RunConsistent(txs);
    var w, tx := Run(txs), Tx(ClientRelease(c, lender), slot, now);
    LiveIffMember(w, c, lender);
    ReleaseIffLive(w.state, c, lender, slot, now);
    assert CountsAgreeAt(w, ParcelPda(c));
    ReleaseKeepsCounts(w, tx, ParcelPda(c));
  }

  /** No lien is stuck: its lender can release it, and any lender can then
      register while the total is below 65535. */
  lemma ReleaseFreesParcel(txs: seq<Tx>, c: Text, lender: Pubkey, next: Pubkey, amount: U64, sig: Bytes32,
                           cert: Bytes32, bumpE: U8, bumpI: U8, slot: U64, now: I64)
    requires EncumbrancePda(ParcelPda(c), lender) in Run(txs).state.encumbrances && amount > 0
    ensures var release := Tx(ClientRelease(c, lender), slot, now);
            var register := Tx(ClientRegister(c, next, amount, sig, cert, bumpE, bumpI), slot, now);
            && Execute(Run(txs).state, release).Committed?
            && (Execute(Run(txs + [release]).state, register).Committed?
                <==> TotalCount(Run(txs).state, ParcelPda(c)) < 0xFFFF)
  {
    var release := Tx(ClientRelease(c, lender), slot, now);
    ReleaseCommitsIffLive(txs, c, lender, slot, now);
    ReleaseNeverSaturates(txs, c, lender, slot, now);
    assert (txs + [release])[..|txs|] == txs;
    RegisterCommitsIffFree(txs + [release], c, next, amount, sig, cert, bumpE, bumpI, slot, now);
    forall l: Pubkey
      ensures EncumbrancePda(ParcelPda(c), l) !in Run(txs + [release]).state.encumbrances
    {
      ZeroCountImpliesInit(txs + [release], ParcelPda(c), l);
    }
    RunConsistent(txs);
  }

  // --------------------------------------------------------- a shortest run

  const NO_HASH: Bytes32 :=
    [0, 0, 0, 0, 0, 0, 0, 0, 0, 0, 0, 0, 0, 0, 0, 0,
     0, 0, 0, 0, 0, 0, 0, 0, 0, 0, 0, 0, 0, 0, 0, 0]

  /** Register a parcel, then a lien on it. */
  function PledgeRun(c: Text, lender: Pubkey): seq<Tx> {
    [Tx(RegisterParcel(ParcelPda(c), lender, c, 1, 1, NO_HASH, 255), 1, 0),
     Tx(ClientRegister(c, lender, 1, NO_HASH, NO_HASH, 255, 255), 1, 0)]
  }

  /** Both transactions commit, whatever the cadastral number's bytes and the lender. */
  lemma PledgeRunCommits(c: Text, lender: Pubkey)
    requires |c| <= MAX_CADASTRAL_LEN
    ensures var w, p := Run(PledgeRun(c, lender)), ParcelPda(c);
            && w.state.parcels.Keys == {p} && w.state.indexes.Keys == {LienIndexPda(p)}
            && w.state.encumbrances.Keys == {EncumbrancePda(p, lender)}
            && w.state.encumbrances[EncumbrancePda(p, lender)].lender == lender
            && w.state.parcels[p].lastCertEpoch == 0 && w.state.parcels[p].ndviSubmissions == 0
            && w.state.indexes[LienIndexPda(p)].totalLienCount == 1
            && |w.log| == 2 && w.log[1].tx == PledgeRun(c, lender)[1]
  {
    var txs := PledgeRun(c, lender);
    assert txs[..1] == [txs[0]];
    assert [txs[0]][..0] == [];
    assert Run([]) == World(GENESIS, []);
    var first := Step(Run([]), txs[0]);
    assert Run([txs[0]]) == first;
    assert first.state.parcels.Keys == {ParcelPda(c)};
    assert Run(txs) == Step(first, txs[1]);
  }

  // ------------------------------------------------------------- locality

  ghost predicate Same<V>(m: map<Address, V>, n: map<Address, V>, a: Address) {
    (a in m <==> a in n) && (a in m ==> m[a] == n[a])
  }

  ghost predicate SameOn<V>(m: map<Address, V>, n: map<Address, V>, addresses: iset<Address>) {
    forall a :: a in addresses ==> Same(m, n, a)
  }

  ghost predicate SameBut<V>(m: map<Address, V>, n: map<Address, V>, addresses: iset<Address>) {
    forall a :: a !in addresses ==> Same(m, n, a)
  }

  ghost function EncumbranceAddresses(parcel: Address): iset<Address> {
    iset a: Address | a.EncumbrancePda? && a.parcel == parcel
  }

  /** The two states hold the same accounts for parcel p. */
  ghost predicate SameAt(s: State, t: State, p: Address) {
    && SameOn(s.parcels, t.parcels, iset{p})
    && SameOn(s.indexes, t.indexes, iset{LienIndexPda(p)})
    && SameOn(s.encumbrances, t.encumbrances, EncumbranceAddresses(p))
  }

  /** The two states hold the same accounts outside parcel p. */
  ghost predicate SameOff(s: State, t: State, p: Address) {
    && SameBut(s.parcels, t.parcels, iset{p})
    && SameBut(s.indexes, t.indexes, iset{LienIndexPda(p)})
    && SameBut(s.encumbrances, t.encumbrances, EncumbranceAddresses(p))
  }

  lemma WritesOnlyItsParcel(s: State, tx: Tx)
    ensures SameOff(s, After(s, tx), tx.ix.parcel)
  {
  }

  lemma RegistryReadsOnlyItsParcel(s: State, t: State, tx: Tx)
    requires SameAt(s, t, tx.ix.parcel) && (tx.ix.RegisterEncumbrance? || tx.ix.ReleaseEncumbrance?)
    ensures Execute(s, tx).Committed? <==> Execute(t, tx).Committed?
    ensures SameAt(After(s, tx), After(t, tx), tx.ix.parcel)
  {
    var p := tx.ix.parcel;
    assert Same(s.parcels, t.parcels, p);
    assert Same(s.indexes, t.indexes, LienIndexPda(p));
    if tx.ix.encumbrance == EncumbrancePda(p, tx.ix.lender) {
      assert tx.ix.encumbrance in EncumbranceAddresses(p);
      assert Same(s.encumbrances, t.encumbrances, tx.ix.encumbrance);
    }
  }

  predicate IsTokenInstruction(ix: Instruction) {
    !ix.RegisterEncumbrance? && !ix.ReleaseEncumbrance?
  }

  lemma TokenLeavesLiens(s: State, tx: Tx)
    requires IsTokenInstruction(tx.ix)
    ensures After(s, tx).indexes == s.indexes && After(s, tx).encumbrances == s.encumbrances
  {
  }

  lemma TokenReadsItsAccount(s: State, t: State, tx: Tx)
    requires IsTokenInstruction(tx.ix) && Same(s.parcels, t.parcels, tx.ix.parcel)
    ensures Execute(s, tx).Committed? <==> Execute(t, tx).Committed?
    ensures Same(After(s, tx).parcels, After(t, tx).parcels, tx.ix.parcel)
  {
  }

  lemma ReadsOnlyItsParcel(s: State, t: State, tx: Tx)
    requires SameAt(s, t, tx.ix.parcel)
    ensures Execute(s, tx).Committed? <==> Execute(t, tx).Committed?
    ensures SameAt(After(s, tx), After(t, tx), tx.ix.parcel)
  {
    if tx.ix.RegisterEncumbrance? || tx.ix.ReleaseEncumbrance? {
      RegistryReadsOnlyItsParcel(s, t, tx);
    } else {
      assert Same(s.parcels, t.parcels, tx.ix.parcel);
      TokenReadsItsAccount(s, t, tx);
      TokenLeavesLiens(s, tx);
      TokenLeavesLiens(t, tx);
    }
  }

  /** Two writers of disjoint addresses that do not see each other meet again. */
  lemma Diamond<V>(m: map<Address, V>, ma: map<Address, V>, mb: map<Address, V>, mab: map<Address, V>,
                   mba: map<Address, V>, owned: iset<Address>, other: iset<Address>)
    requires owned !! other
    requires SameBut(m, ma, owned) && SameBut(ma, mab, other)
    requires SameBut(m, mb, other) && SameBut(mb, mba, owned)
    requires SameOn(ma, mba, owned) && SameOn(mb, mab, other)
    ensures mab == mba
  {
    forall x: Address
      ensures (x in mab <==> x in mba) && (x in mab ==> mab[x] == mba[x])
    {
      assert x !in owned ==> Same(m, ma, x) && Same(mb, mba, x);
      assert x !in other ==> Same(ma, mab, x) && Same(m, mb, x);
      assert x in owned ==> Same(ma, mba, x);
      assert x in other ==> Same(mb, mab, x);
    }
  }

  lemma SeenAs(s: State, t: State, p: Address, q: Address)
    requires SameOff(s, t, q) && p != q
    ensures SameAt(s, t, p)
  {
  }

  /** Transactions on different parcels commute, from any state: neither changes
      whether the other commits, and the order does not show in the accounts. */
  lemma StepsCommute(s: State, a: Tx, b: Tx)
    requires a.ix.parcel != b.ix.parcel
    ensures Execute(s, a).Committed? <==> Execute(After(s, b), a).Committed?
    ensures Execute(s, b).Committed? <==> Execute(After(s, a), b).Committed?
    ensures After(After(s, a), b) == After(After(s, b), a)
  {
    WritesOnlyItsParcel(s, a);
    WritesOnlyItsParcel(s, b);
    WritesOnlyItsParcel(After(s, a), b);
    WritesOnlyItsParcel(After(s, b), a);
    SeenAs(s, After(s, b), a.ix.parcel, b.ix.parcel);
    SeenAs(s, After(s, a), b.ix.parcel, a.ix.parcel);
    ReadsOnlyItsParcel(s, After(s, b), a);
    ReadsOnlyItsParcel(s, After(s, a), b);
    MeetAgain(s, After(s, a), After(s, b), After(After(s, a), b), After(After(s, b), a), a.ix.parcel, b.ix.parcel);
  }

  lemma MeetAgain(s: State, sa: State, sb: State, sab: State, sba: State, p: Address, q: Address)
    requires p != q
    requires SameOff(s, sa, p) && SameOff(sa, sab, q) && SameOff(s, sb, q) && SameOff(sb, sba, p)
    requires SameAt(sa, sba, p) && SameAt(sb, sab, q)
    ensures sab == sba
  {
    Diamond(s.parcels, sa.parcels, sb.parcels, sab.parcels, sba.parcels, iset{p}, iset{q});
    Diamond(s.indexes, sa.indexes, sb.indexes, sab.indexes, sba.indexes,
            iset{LienIndexPda(p)}, iset{LienIndexPda(q)});
    Diamond(s.encumbrances, sa.encumbrances, sb.encumbrances, sab.encumbrances, sba.encumbrances,
            EncumbranceAddresses(p), EncumbranceAddresses(q));
  }
}
