/** Replaying the chain's events through the webhook rebuilds the lien state. */
module IndexAgreement {
  import opened Borsh
  import opened Accounts
  import TerraToken
  import opened LienRegistry
  import opened Protocol
  import opened LienTable
  import opened Webhook

  /** A log payload and when the webhook handled it. */
  datatype Delivery = Delivery(bytes: Bytes, at: Time)

  function Replay(t: Table, ds: seq<Delivery>): Table {
    if ds == [] then t
    else Deliver(Replay(t, ds[..|ds| - 1]), ds[|ds| - 1].bytes, ds[|ds| - 1].at)
  }

  /** The payloads among the log lines of a transaction. */
  function Payloads(lines: seq<LogLine>, now: Time): seq<Delivery> {
    if lines == [] then []
    else
      var last := lines[|lines| - 1];
      Payloads(lines[..|lines| - 1], now)
      + (if last.ProgramData? && last.decoded.Some? then [Delivery(last.decoded.value, now)] else [])
  }

  /** What the webhook does to a transaction is replaying its payloads. */
  lemma {:induction false} HandlerReplays(t: Table, lines: seq<LogLine>, now: Time)
    ensures DeliverLines(t, lines, now) == Replay(t, Payloads(lines, now))
  {
    if lines != [] {
      var init, last := lines[..|lines| - 1], lines[|lines| - 1];
      HandlerReplays(t, init, now);
      if last.ProgramData? && last.decoded.Some? {
        var ps := Payloads(init, now);
        assert Payloads(lines, now)[..|ps|] == ps;
      } else {
        assert Payloads(lines, now) == Payloads(init, now);
      }
    }
  }

  /** The events a run emitted, in order. */
  function Emitted(log: seq<Entry>): seq<Event> {
    if log == [] then []
    else Emitted(log[..|log| - 1])
         + (match log[|log| - 1].event case Some(e) => [e] case None => [])
  }

  /** The deliveries carry exactly the given events, once each, in order. */
  ghost predicate Carries(ds: seq<Delivery>, es: seq<Event>, render: Address -> Pubkey) {
    |ds| == |es| && forall i :: CarriesAt(ds, es, render, i)
  }

  ghost predicate CarriesAt(ds: seq<Delivery>, es: seq<Event>, render: Address -> Pubkey, i: int) {
    0 <= i < |ds| && i < |es| ==> ds[i].bytes == EncodeEvent(es[i], render)
  }

  ghost predicate RebuiltBy(w: World, t: Table, ds: seq<Delivery>, render: Address -> Pubkey) {
    Carries(ds, Emitted(w.log), render) && t == Replay(Table(t.parcelIds, []), ds)
  }

  /** The table is what the webhook makes of the world's events, delivered in order
      and once each, at any times, to an empty table. */
  ghost predicate Rebuilt(w: World, t: Table, render: Address -> Pubkey) {
    exists ds :: RebuiltBy(w, t, ds, render)
  }

  // -------------------------------------------------------------- agreement

  /** Row r is the index's copy of a live encumbrance on cadastral c. */
  ghost predicate MirrorsLive(s: State, r: Row, c: Bytes) {
    && r.lien.lenderWallet.Base58?
    && var a := EncumbrancePda(ParcelPda(c), r.lien.lenderWallet.key);
       a in s.encumbrances && r.lien.amountTenge == ToInt64(s.encumbrances[a].amount)
  }

  ghost predicate HasActiveRow(t: Table, c: Bytes, lender: Pubkey) {
    exists i :: 0 <= i < |t.rows| && IsActiveFor(t.rows[i], c) && t.rows[i].lien.lenderWallet == Base58(lender)
  }

  /** Cadastral c has an active row for exactly the lenders with a live
      encumbrance, with the same amount, and as many rows as registrations. */
  ghost predicate AgreeAt(s: State, t: Table, c: Bytes) {
    && (forall i :: 0 <= i < |t.rows| && IsActiveFor(t.rows[i], c) ==> MirrorsLive(s, t.rows[i], c))
    && (forall l: Pubkey :: EncumbrancePda(ParcelPda(c), l) in s.encumbrances ==> HasActiveRow(t, c, l))
    && |RowsOf(t.rows, c)| == TotalCount(s, ParcelPda(c))
  }

  ghost predicate NoRows(t: Table, c: Bytes) {
    forall i :: 0 <= i < |t.rows| ==> t.rows[i].lien.cadastral != c
  }

  /** The table takes the rows the webhook inserts for cadastral c: the foreign key
      admits the zero parcel id and the column the text. */
  predicate Indexable(parcelIds: set<Uuid>, c: Bytes) {
    ZERO_UUID in parcelIds && Fits(c, 20)
  }

  ghost predicate TracksAt(s: State, t: Table, c: Bytes) {
    if Indexable(t.parcelIds, c) then AgreeAt(s, t, c) else NoRows(t, c)
  }

  ghost predicate Safe(t: Table) {
    UniqueActive(t) && ReleasesStamped(t)
  }

  // What leaves cadastral c alone.

  ghost predicate SameLiens(s: State, s': State, c: Bytes) {
    && TotalCount(s, ParcelPda(c)) == TotalCount(s', ParcelPda(c))
    && forall l: Pubkey :: Same(s.encumbrances, s'.encumbrances, EncumbrancePda(ParcelPda(c), l))
  }

  ghost predicate SameRows(t: Table, t': Table, c: Bytes) {
    && |RowsOf(t.rows, c)| == |RowsOf(t'.rows, c)|
    && (forall i :: 0 <= i < |t.rows| && t.rows[i].lien.cadastral == c ==> i < |t'.rows| && t'.rows[i] == t.rows[i])
    && (forall i :: 0 <= i < |t'.rows| && t'.rows[i].lien.cadastral == c ==> i < |t.rows| && t'.rows[i] == t.rows[i])
  }

  lemma Untouched(s: State, s': State, t: Table, t': Table, c: Bytes)
    requires TracksAt(s, t, c) && SameLiens(s, s', c) && SameRows(t, t', c) && t'.parcelIds == t.parcelIds
    ensures TracksAt(s', t', c)
  {
    if Indexable(t.parcelIds, c) {
      forall l: Pubkey | EncumbrancePda(ParcelPda(c), l) in s'.encumbrances
        ensures HasActiveRow(t', c, l)
      {
        assert Same(s.encumbrances, s'.encumbrances, EncumbrancePda(ParcelPda(c), l));
        assert HasActiveRow(t, c, l);
        var i :| 0 <= i < |t.rows| && IsActiveFor(t.rows[i], c) && t.rows[i].lien.lenderWallet == Base58(l);
        assert t'.rows[i] == t.rows[i];
      }
      forall i | 0 <= i < |t'.rows| && IsActiveFor(t'.rows[i], c)
        ensures MirrorsLive(s', t'.rows[i], c)
      {
        var r := t'.rows[i];
        assert MirrorsLive(s, r, c);
        assert Same(s.encumbrances, s'.encumbrances, EncumbrancePda(ParcelPda(c), r.lien.lenderWallet.key));
      }
    }
  }

  lemma OtherInsert(t: Table, lien: Lien, now: Time, c: Bytes)
    requires lien.cadastral != c
    ensures SameRows(t, Insert(t, lien, now), c)
  {
    AppendRow(t.rows, Row(lien, Active, now, None), c);
  }

  lemma OtherRelease(t: Table, id: nat, now: Time, c: Bytes)
    requires id < |t.rows| && t.rows[id].lien.cadastral != c
    ensures SameRows(t, SetStatus(t, id, Released, now), c)
  {
    UpdateRow(t.rows, id, SetStatus(t, id, Released, now).rows[id], c);
  }

  lemma ElsewhereSameLiens(s: State, tx: Tx, c: Bytes)
    requires tx.ix.parcel != ParcelPda(c)
    ensures SameLiens(s, After(s, tx), c)
  {
    WritesOnlyItsParcel(s, tx);
    SeenAs(s, After(s, tx), ParcelPda(c), tx.ix.parcel);
    assert Same(s.indexes, After(s, tx).indexes, LienIndexPda(ParcelPda(c)));
    forall l: Pubkey
      ensures Same(s.encumbrances, After(s, tx).encumbrances, EncumbrancePda(ParcelPda(c), l))
    {
      assert EncumbrancePda(ParcelPda(c), l) in EncumbranceAddresses(ParcelPda(c));
    }
  }

  // What happens at cadastral c itself.

  /** A parcel whose counter is zero has no live lien, so no active row. */
  lemma NoLiveNoActive(w: World, t: Table, c: Bytes)
    requires CountsAgreeAt(w, ParcelPda(c)) && TracksAt(w.state, t, c) && ActiveCount(w.state, ParcelPda(c)) == 0
    ensures FindActive(t.rows, c) == None
    ensures forall l: Pubkey :: EncumbrancePda(ParcelPda(c), l) !in w.state.encumbrances
  {
    assert LiveLiens(w.state, ParcelPda(c)) == {};
    forall l: Pubkey
      ensures EncumbrancePda(ParcelPda(c), l) !in w.state.encumbrances
    {
      assert EncumbrancePda(ParcelPda(c), l) in w.state.encumbrances
             ==> EncumbrancePda(ParcelPda(c), l) in LiveLiens(w.state, ParcelPda(c));
    }
  }

  lemma NewRowAgrees(s: State, s': State, t: Table, r: Row, c: Bytes, lender: Pubkey)
    requires AgreeAt(s, t, c) && FindActive(t.rows, c) == None
    requires IsActiveFor(r, c) && r.lien.lenderWallet == Base58(lender) && MirrorsLive(s', r, c)
    requires forall l: Pubkey :: EncumbrancePda(ParcelPda(c), l) in s'.encumbrances ==> l == lender
    requires TotalCount(s', ParcelPda(c)) == TotalCount(s, ParcelPda(c)) + 1
    ensures AgreeAt(s', t.(rows := t.rows + [r]), c)
  {
    var t' := t.(rows := t.rows + [r]);
    AppendRow(t.rows, r, c);
    assert t'.rows[|t.rows|] == r;
    assert HasActiveRow(t', c, lender);
  }

  lemma RegisteredThere(s: State, tx: Tx)
    requires tx.ix.RegisterEncumbrance? && RegisterEncumbranceSpec(s, tx).Committed?
    ensures var ix, o := tx.ix, RegisterEncumbranceSpec(s, tx);
            && o.event == Some(EncumbranceRegistered(ix.cadastral, ix.lender, ix.amount, ix.parcel))
            && ix.parcel == ParcelPda(ix.cadastral) && ActiveCount(s, ix.parcel) == 0
            && TotalCount(o.state, ix.parcel) == TotalCount(s, ix.parcel) + 1
            && ix.encumbrance == EncumbrancePda(ix.parcel, ix.lender)
            && o.state.encumbrances == s.encumbrances[ix.encumbrance := o.state.encumbrances[ix.encumbrance]]
            && o.state.encumbrances[ix.encumbrance].amount == ix.amount
  {
  }

  lemma RegisterTracks(w: World, t: Table, tx: Tx, now: Time)
    requires CountsAgreeAt(w, tx.ix.parcel)
    requires tx.ix.RegisterEncumbrance? && RegisterEncumbranceSpec(w.state, tx).Committed?
    requires TracksAt(w.state, t, tx.ix.cadastral)
    ensures var lien := IndexedLien(Registered(tx.ix.cadastral, tx.ix.lender, tx.ix.amount));
            TracksAt(RegisterEncumbranceSpec(w.state, tx).state, Insert(t, lien, now), tx.ix.cadastral)
  {
    var s, s', c := w.state, RegisterEncumbranceSpec(w.state, tx).state, tx.ix.cadastral;
    var lien := IndexedLien(Registered(c, tx.ix.lender, tx.ix.amount));
    RegisteredThere(s, tx);
    NoLiveNoActive(w, t, c);
    if Indexable(t.parcelIds, c) {
      assert InsertError(t, lien) == None;
      NewRowAgrees(s, s', t, Row(lien, Active, now, None), c, tx.ix.lender);
    } else {
      assert InsertError(t, lien) != None;
    }
  }

  lemma ReleasedThere(s: State, tx: Tx)
    requires ParcelsWellFormed(s) && tx.ix.ReleaseEncumbrance? && ReleaseEncumbranceSpec(s, tx).Committed?
    ensures var ix, o := tx.ix, ReleaseEncumbranceSpec(s, tx);
            && ix.parcel in s.parcels && ix.parcel == ParcelPda(s.parcels[ix.parcel].cadastral)
            && o.event == Some(EncumbranceReleased(s.parcels[ix.parcel].cadastral, ix.lender, ix.parcel))
            && EncumbrancePda(ix.parcel, ix.lender) in s.encumbrances
            && o.state.encumbrances == s.encumbrances - {EncumbrancePda(ix.parcel, ix.lender)}
            && TotalCount(o.state, ix.parcel) == TotalCount(s, ix.parcel)
  {
  }

  /** A release empties the parcel and releases its row, or finds none to release. */
  lemma ReleaseTracks(w: World, s': State, t: Table, lender: Pubkey, now: Time, c: Bytes)
    requires CountsAgreeAt(w, ParcelPda(c)) && Safe(t) && TracksAt(w.state, t, c)
    requires EncumbrancePda(ParcelPda(c), lender) in w.state.encumbrances
    requires s'.encumbrances == w.state.encumbrances - {EncumbrancePda(ParcelPda(c), lender)}
    requires TotalCount(s', ParcelPda(c)) == TotalCount(w.state, ParcelPda(c))
    ensures TracksAt(s', ReleaseByWallet(t, Base58(lender), c, now), c)
  {
    if Indexable(t.parcelIds, c) {
      assert HasActiveRow(t, c, lender);
      OnlyLiveGone(w, s', c, lender);
      ReleasedRowAgrees(w.state, s', t, c, lender, now);
    } else {
      assert FindByWallet(t.rows, Base58(lender), c) == None;
    }
  }

  lemma OnlyLiveGone(w: World, s': State, c: Bytes, lender: Pubkey)
    requires CountsAgreeAt(w, ParcelPda(c)) && EncumbrancePda(ParcelPda(c), lender) in w.state.encumbrances
    requires s'.encumbrances == w.state.encumbrances - {EncumbrancePda(ParcelPda(c), lender)}
    ensures forall l: Pubkey :: EncumbrancePda(ParcelPda(c), l) !in s'.encumbrances
  {
    var live, a := LiveLiens(w.state, ParcelPda(c)), EncumbrancePda(ParcelPda(c), lender);
    assert a in live && |live - {a}| == 0;
    assert live - {a} == {};
    forall l: Pubkey
      ensures EncumbrancePda(ParcelPda(c), l) !in s'.encumbrances
    {
      assert EncumbrancePda(ParcelPda(c), l) in s'.encumbrances ==> EncumbrancePda(ParcelPda(c), l) in live - {a};
    }
  }

  lemma ReleasedRowAgrees(s: State, s': State, t: Table, c: Bytes, lender: Pubkey, now: Time)
    requires AgreeAt(s, t, c) && UniqueActive(t) && HasActiveRow(t, c, lender) && 0 !in c
    requires forall l: Pubkey :: EncumbrancePda(ParcelPda(c), l) !in s'.encumbrances
    requires TotalCount(s', ParcelPda(c)) == TotalCount(s, ParcelPda(c))
    ensures AgreeAt(s', ReleaseByWallet(t, Base58(lender), c, now), c)
  {
    var id := FindByWallet(t.rows, Base58(lender), c).value;
    var t' := SetStatus(t, id, Released, now);
    UpdateRow(t.rows, id, t'.rows[id], c);
    forall i | 0 <= i < |t'.rows|
      ensures !IsActiveFor(t'.rows[i], c)
    {
      assert i != id ==> t'.rows[i] == t.rows[i];
    }
  }

  // ---------------------------------------------------------------- replay

  /** The events a transaction adds: at most one, and none unless it commits. */
  function NewEvents(s: State, tx: Tx): (es: seq<Event>)
    ensures |es| <= 1
  {
    match Execute(s, tx)
    case Committed(_, Some(e)) => [e]
    case _ => []
  }

  lemma EmittedStep(w: World, tx: Tx)
    ensures Emitted(Step(w, tx).log) == Emitted(w.log) + NewEvents(w.state, tx)
    ensures Step(w, tx).state == After(w.state, tx)
  {
    var o := Execute(w.state, tx);
    if o.Committed? {
      assert (w.log + [Entry(tx, o.event)])[..|w.log|] == w.log;
    }
  }

  lemma IntendedKeepsSafe(t: Table, e: Event, now: Time)
    requires Safe(t)
    ensures Safe(Intended(t, e, now)) && Intended(t, e, now).parcelIds == t.parcelIds
  {
    match e
    case EncumbranceRegistered(c, l, a, _) => InsertKeepsSafe(t, IndexedLien(Registered(c, l, a)), now);
    case EncumbranceReleased(c, l, _) =>
      var id := FindByWallet(t.rows, Base58(l), c);
      if id.Some? {
        ReleaseKeepsSafe(t, id.value, now);
      }
    case _ =>
  }

  lemma EventElsewhere(t: Table, e: Event, now: Time, c: Bytes)
    requires e.cadastral != c
    ensures SameRows(t, Intended(t, e, now), c)
  {
    match e
    case EncumbranceRegistered(d, l, a, _) => OtherInsert(t, IndexedLien(Registered(d, l, a)), now, c);
    case EncumbranceReleased(d, l, _) =>
      var id := FindByWallet(t.rows, Base58(l), d);
      if id.Some? {
        OtherRelease(t, id.value, now, c);
      }
    case _ =>
  }

  /** Whatever commits on a parcel is announced under that parcel's cadastral. */
  lemma EventNamesParcel(s: State, tx: Tx)
    requires ParcelsWellFormed(s) && NewEvents(s, tx) != []
    ensures tx.ix.parcel == ParcelPda(NewEvents(s, tx)[0].cadastral)
  {
    if tx.ix.ReleaseEncumbrance? {
      ReleasedThere(s, tx);
    }
  }

  lemma StepTracks(w: World, t: Table, tx: Tx, now: Time, c: Bytes)
    requires Consistent(w) && Safe(t) && TracksAt(w.state, t, c)
    ensures TracksAt(After(w.state, tx), Delivered(t, NewEvents(w.state, tx), now), c)
  {
    if tx.ix.parcel != ParcelPda(c) {
      ElsewhereSameLiens(w.state, tx, c);
      Untouched(w.state, After(w.state, tx), t, t, c);
      if NewEvents(w.state, tx) != [] {
        EventNamesParcel(w.state, tx);
        var e := NewEvents(w.state, tx)[0];
        EventElsewhere(t, e, now, c);
        IntendedKeepsSafe(t, e, now);
        Untouched(w.state, After(w.state, tx), t, Intended(t, e, now), c);
      }
    } else {
      StepTracksThere(w, t, tx, now, c);
    }
  }

  /** What a transaction's events do to the table. */
  function Delivered(t: Table, es: seq<Event>, now: Time): Table {
    if es == [] then t else Intended(t, es[0], now)
  }

  lemma StepTracksThere(w: World, t: Table, tx: Tx, now: Time, c: Bytes)
    requires Consistent(w) && Safe(t) && TracksAt(w.state, t, c) && tx.ix.parcel == ParcelPda(c)
    ensures TracksAt(After(w.state, tx), Delivered(t, NewEvents(w.state, tx), now), c)
  {
    assert CountsAgreeAt(w, tx.ix.parcel);
    if tx.ix.RegisterEncumbrance? {
      RegisterStepThere(w, t, tx, now, c);
    } else if tx.ix.ReleaseEncumbrance? {
      ReleaseStepThere(w, t, tx, now, c);
    } else {
      TokenStepThere(w.state, t, tx, now, c);
    }
  }

  lemma RegisterStepThere(w: World, t: Table, tx: Tx, now: Time, c: Bytes)
    requires CountsAgreeAt(w, tx.ix.parcel) && TracksAt(w.state, t, c)
    requires tx.ix.RegisterEncumbrance? && tx.ix.parcel == ParcelPda(c)
    ensures TracksAt(After(w.state, tx), Delivered(t, NewEvents(w.state, tx), now), c)
  {
    var o := RegisterEncumbranceSpec(w.state, tx);
    if o.Committed? {
      RegisteredThere(w.state, tx);
      RegisterTracks(w, t, tx, now);
      assert NewEvents(w.state, tx) == [o.event.value];
    } else {
      assert NewEvents(w.state, tx) == [] && After(w.state, tx) == w.state;
    }
  }

  lemma ReleaseNews(s: State, tx: Tx, c: Bytes)
    requires ParcelsWellFormed(s) && tx.ix.ReleaseEncumbrance? && tx.ix.parcel == ParcelPda(c)
    ensures !ReleaseEncumbranceSpec(s, tx).Committed? ==> NewEvents(s, tx) == [] && After(s, tx) == s
    ensures ReleaseEncumbranceSpec(s, tx).Committed? ==>
              && After(s, tx) == ReleaseEncumbranceSpec(s, tx).state
              && NewEvents(s, tx) == [EncumbranceReleased(c, tx.ix.lender, tx.ix.parcel)]
  {
    if ReleaseEncumbranceSpec(s, tx).Committed? {
      ReleasedThere(s, tx);
    }
  }

  lemma ReleaseStepThere(w: World, t: Table, tx: Tx, now: Time, c: Bytes)
    requires Consistent(w) && Safe(t) && TracksAt(w.state, t, c)
    requires tx.ix.ReleaseEncumbrance? && tx.ix.parcel == ParcelPda(c)
    ensures TracksAt(After(w.state, tx), Delivered(t, NewEvents(w.state, tx), now), c)
  {
    ReleaseNews(w.state, tx, c);
    var s' := After(w.state, tx);
    if NewEvents(w.state, tx) != [] {
      ReleasedThere(w.state, tx);
      assert CountsAgreeAt(w, ParcelPda(c));
      ReleaseTracks(w, s', t, tx.ix.lender, now, c);
    }
  }

  lemma TokenStepThere(s: State, t: Table, tx: Tx, now: Time, c: Bytes)
    requires TracksAt(s, t, c) && IsTokenInstruction(tx.ix)
    ensures TracksAt(After(s, tx), Delivered(t, NewEvents(s, tx), now), c)
  {
    TokenLeavesLiens(s, tx);
    TokenEventsSilent(s, t, tx, now);
    assert SameLiens(s, After(s, tx), c);
    Untouched(s, After(s, tx), t, t, c);
  }

  lemma TokenEventsSilent(s: State, t: Table, tx: Tx, now: Time)
    requires IsTokenInstruction(tx.ix)
    ensures Delivered(t, NewEvents(s, tx), now) == t
  {
  }

  /** By induction over the run. */
  lemma {:induction false} RunTracks(txs: seq<Tx>, ds: seq<Delivery>, render: Address -> Pubkey,
                                     parcelIds: set<Uuid>, c: Bytes)
    requires Carries(ds, Emitted(Run(txs).log), render)
    ensures TracksAt(Run(txs).state, Replay(Table(parcelIds, []), ds), c)
    ensures Safe(Replay(Table(parcelIds, []), ds)) && Replay(Table(parcelIds, []), ds).parcelIds == parcelIds
  {
    if txs != [] {
      var before, tx := txs[..|txs| - 1], txs[|txs| - 1];
      var w := Run(before);
      var n, es := |Emitted(w.log)|, NewEvents(w.state, tx);
      EmittedStep(w, tx);
      RunConsistent(before);
      CarriesFirst(ds, Emitted(w.log), es, render);
      RunTracks(before, ds[..n], render, parcelIds, c);
      var t := Replay(Table(parcelIds, []), ds[..n]);
      if es == [] {
        assert ds[..n] == ds;
        StepTracks(w, t, tx, 0, c);
      } else {
        ReplayNext(Table(parcelIds, []), ds, Emitted(w.log), es[0], render);
        StepTracks(w, t, tx, ds[n].at, c);
        IntendedKeepsSafe(t, es[0], ds[n].at);
      }
    }
  }

  lemma CarriesFirst(ds: seq<Delivery>, es: seq<Event>, more: seq<Event>, render: Address -> Pubkey)
    requires Carries(ds, es + more, render)
    ensures Carries(ds[..|es|], es, render)
  {
    forall i
      ensures CarriesAt(ds[..|es|], es, render, i)
    {
      assert CarriesAt(ds, es + more, render, i);
    }
  }

  lemma ReplayNext(t: Table, ds: seq<Delivery>, es: seq<Event>, e: Event, render: Address -> Pubkey)
    requires Carries(ds, es + [e], render)
    ensures Replay(t, ds) == Intended(Replay(t, ds[..|es|]), e, ds[|es|].at)
  {
    assert CarriesAt(ds, es + [e], render, |es|);
    DeliverEvent(Replay(t, ds[..|es|]), e, render, ds[|es|].at);
  }

  /** In every reachable world, for every table rebuilt from its events and every
      cadastral: the cadastral agrees with the chain when the table takes its rows,
      and has no rows when it does not. */
  lemma ReplayTracks(w: World, t: Table, render: Address -> Pubkey, c: Bytes)
    requires Reachable(w) && Rebuilt(w, t, render)
    ensures TracksAt(w.state, t, c) && Safe(t)
  {
    var txs :| w == Run(txs);
    var ds :| RebuiltBy(w, t, ds, render);
    RunTracks(txs, ds, render, t.parcelIds, c);
  }

  /** There is such a table for any set of known parcels. */
  lemma RebuiltExists(w: World, parcelIds: set<Uuid>, render: Address -> Pubkey) returns (t: Table)
    ensures Rebuilt(w, t, render) && t.parcelIds == parcelIds
  {
    var es := Emitted(w.log);
    var ds := seq(|es|, i requires 0 <= i < |es| => Delivery(EncodeEvent(es[i], render), 0));
    t := Replay(Table(parcelIds, []), ds);
    ReplayKeepsParcels(Table(parcelIds, []), ds);
    assert RebuiltBy(w, t, ds, render);
  }

  lemma {:induction false} ReplayKeepsParcels(t: Table, ds: seq<Delivery>)
    ensures Replay(t, ds).parcelIds == t.parcelIds
  {
    if ds != [] {
      ReplayKeepsParcels(t, ds[..|ds| - 1]);
    }
  }

  // ------------------------------------------------------- released rows

  ghost predicate NoneDisputed(t: Table) {
    forall i :: 0 <= i < |t.rows| ==> !t.rows[i].status.Disputed?
  }

  lemma {:induction false} ReplayNoneDisputed(t: Table, ds: seq<Delivery>)
    requires NoneDisputed(t)
    ensures NoneDisputed(Replay(t, ds))
  {
    if ds != [] {
      ReplayNoneDisputed(t, ds[..|ds| - 1]);
      DeliverNoneDisputed(Replay(t, ds[..|ds| - 1]), ds[|ds| - 1].bytes, ds[|ds| - 1].at);
    }
  }

  lemma DeliverNoneDisputed(t: Table, bytes: Bytes, now: Time)
    requires NoneDisputed(t)
    ensures NoneDisputed(Deliver(t, bytes, now))
  {
    if |bytes| >= 8 && DecodeKeyed(bytes[8..]).Some? {
      var r := DecodeKeyed(bytes[8..]).value;
      ReleasesItsRow(t, Base58(r.key), r.cadastral, now);
    }
  }

  lemma {:induction false} NoDisputeCounted(rows: seq<Row>, c: Bytes)
    requires forall i :: 0 <= i < |rows| ==> !rows[i].status.Disputed?
    ensures StatusCount(rows, c, Disputed) == 0
  {
    if rows != [] {
      NoDisputeCounted(rows[..|rows| - 1], c);
    }
  }

  /** The rebuilt index keeps the chain's history: a cadastral whose rows the table
      takes has as many released rows as liens were released on chain, an active row
      while one is live, and none disputed. */
  lemma ReleasesAreIndexed(w: World, t: Table, render: Address -> Pubkey, c: Bytes)
    requires Reachable(w) && Rebuilt(w, t, render) && Indexable(t.parcelIds, c)
    ensures StatusCount(t.rows, c, Released) == Releases(w.log, ParcelPda(c))
    ensures StatusCount(t.rows, c, Active) == ActiveCount(w.state, ParcelPda(c))
    ensures StatusCount(t.rows, c, Disputed) == 0
  {
    var txs :| w == Run(txs);
    RunConsistent(txs);
    assert CountsAgreeAt(w, ParcelPda(c));
    ReplayTracks(w, t, render, c);
    ActiveRowIffLive(w, t, c);
    StatusesAddUp(t.rows, c);
    OneActiveRow(t, c);
    var ds :| RebuiltBy(w, t, ds, render);
    ReplayNoneDisputed(Table(t.parcelIds, []), ds);
    NoDisputeCounted(t.rows, c);
  }

  // ------------------------------------------------------- exactly when it agrees

  /** On a cadastral that ever had a lien the column's width never binds, so its
      rows are accepted unless the zero id is unknown or the text holds a zero. */
  lemma RegisteredFits(w: World, c: Bytes)
    requires Consistent(w) && TotalCount(w.state, ParcelPda(c)) > 0
    ensures Fits(c, 20) <==> 0 !in c
  {
    var i := LienIndexPda(ParcelPda(c));
    assert i in w.state.indexes && i.parcel in w.state.parcels;
    assert |c| <= TerraToken.MAX_CADASTRAL_LEN;
    CharsAtMost(c);
  }

  lemma {:induction false} NoRowsCounted(rows: seq<Row>, c: Bytes)
    requires forall i :: 0 <= i < |rows| ==> rows[i].lien.cadastral != c
    ensures RowsOf(rows, c) == []
  {
    if rows != [] {
      NoRowsCounted(rows[..|rows| - 1], c);
    }
  }

  lemma NeverRegistered(w: World, c: Bytes)
    requires Consistent(w) && TotalCount(w.state, ParcelPda(c)) == 0
    ensures forall l: Pubkey :: EncumbrancePda(ParcelPda(c), l) !in w.state.encumbrances
  {
    assert CountsAgreeAt(w, ParcelPda(c));
    assert LiveLiens(w.state, ParcelPda(c)) == {};
    forall l: Pubkey
      ensures EncumbrancePda(ParcelPda(c), l) !in w.state.encumbrances
    {
      assert EncumbrancePda(ParcelPda(c), l) in w.state.encumbrances
             ==> EncumbrancePda(ParcelPda(c), l) in LiveLiens(w.state, ParcelPda(c));
    }
  }

  /** In every reachable world the rebuilt index agrees with the chain on a cadastral
      exactly when the foreign key admits the zero parcel id, which is all the
      handler ever writes, and the cadastral holds no zero byte, which the program
      accepts and the database refuses; or when no lien was ever registered on it. */
  lemma ReplayAgreesIff(w: World, t: Table, render: Address -> Pubkey, c: Bytes)
    requires Reachable(w) && Rebuilt(w, t, render)
    ensures AgreeAt(w.state, t, c)
            <==> (ZERO_UUID in t.parcelIds && 0 !in c) || TotalCount(w.state, ParcelPda(c)) == 0
  {
    var txs :| w == Run(txs);
    RunConsistent(txs);
    ReplayTracks(w, t, render, c);
    TrackedAgreesIff(w, t, c);
  }

  lemma TrackedAgreesIff(w: World, t: Table, c: Bytes)
    requires Consistent(w) && TracksAt(w.state, t, c)
    ensures AgreeAt(w.state, t, c)
            <==> (ZERO_UUID in t.parcelIds && 0 !in c) || TotalCount(w.state, ParcelPda(c)) == 0
  {
    if TotalCount(w.state, ParcelPda(c)) > 0 {
      RegisteredFits(w, c);
    } else {
      NeverRegistered(w, c);
    }
    if !Indexable(t.parcelIds, c) {
      NoRowsCounted(t.rows, c);
    }
  }

  /** Every case where it does not agree is reached: registering a parcel and one
      lien on it is enough. */
  lemma DisagreementReached(c: Text, lender: Pubkey, t: Table, render: Address -> Pubkey)
    requires |c| <= TerraToken.MAX_CADASTRAL_LEN && (ZERO_UUID !in t.parcelIds || 0 in c)
    requires Rebuilt(Run(PledgeRun(c, lender)), t, render)
    ensures !AgreeAt(Run(PledgeRun(c, lender)).state, t, c)
  {
    PledgeRunCommits(c, lender);
    ReplayAgreesIff(Run(PledgeRun(c, lender)), t, render, c);
  }

  // ---------------------------------------------------------------- profile

  /** Row r names the one live encumbrance of cadastral c, with its amount
      exactly when that fits an int64. */
  ghost predicate NamesOnlyLien(s: State, r: Row, c: Bytes) {
    && r.lien.lenderWallet.Base58?
    && var a := EncumbrancePda(ParcelPda(c), r.lien.lenderWallet.key);
       && a in s.encumbrances && LiveLiens(s, ParcelPda(c)) == {a}
       && (r.lien.amountTenge == s.encumbrances[a].amount <==> s.encumbrances[a].amount < 0x8000_0000_0000_0000)
  }

  lemma ActiveRowNamesLien(w: World, c: Bytes, r: Row)
    requires CountsAgreeAt(w, ParcelPda(c)) && MirrorsLive(w.state, r, c)
    ensures NamesOnlyLien(w.state, r, c)
  {
    var live, a := LiveLiens(w.state, ParcelPda(c)), EncumbrancePda(ParcelPda(c), r.lien.lenderWallet.key);
    assert a in live && |live - {a}| == 0;
    assert live - {a} == {};
  }

  lemma ActiveRowIffLive(w: World, t: Table, c: Bytes)
    requires CountsAgreeAt(w, ParcelPda(c)) && AgreeAt(w.state, t, c)
    ensures FindActive(t.rows, c).Some? <==> ActiveCount(w.state, ParcelPda(c)) > 0
  {
    var live := LiveLiens(w.state, ParcelPda(c));
    if FindActive(t.rows, c).Some? {
      var r := t.rows[FindActive(t.rows, c).value];
      assert EncumbrancePda(ParcelPda(c), r.lien.lenderWallet.key) in live;
    }
    if ActiveCount(w.state, ParcelPda(c)) > 0 {
      var a :| a in live;
      assert a == EncumbrancePda(ParcelPda(c), a.lender);
      assert HasActiveRow(t, c, a.lender);
    }
  }

  /** The profile reports the chain's own state: a double-pledge risk exactly when
      the counter is positive, the u16 total as its history count, and no active
      lien but the live one. */
  ghost predicate ReportsChain(s: State, d: EncumbranceData, c: Bytes) {
    && (d.doublePledgeRisk <==> ActiveCount(s, ParcelPda(c)) > 0)
    && d.lienCountHistorical == TotalCount(s, ParcelPda(c))
    && forall r <- d.activeLiens :: NamesOnlyLien(s, r, c)
  }

  lemma ProfileMatchesChain(w: World, t: Table, render: Address -> Pubkey, c: Bytes)
    requires Reachable(w) && Rebuilt(w, t, render) && ZERO_UUID in t.parcelIds && 0 !in c
    ensures ReportsChain(w.state, Profile(t, c), c)
  {
    var txs :| w == Run(txs);
    RunConsistent(txs);
    ReplayAgreesIff(w, t, render, c);
    AgreedProfile(w, t, c);
  }

  lemma AgreedProfile(w: World, t: Table, c: Bytes)
    requires Consistent(w) && AgreeAt(w.state, t, c) && 0 !in c
    ensures ReportsChain(w.state, Profile(t, c), c)
  {
    assert CountsAgreeAt(w, ParcelPda(c));
    ActiveRowIffLive(w, t, c);
    ProfileCounts(t, c);
    forall r | r in Profile(t, c).activeLiens
      ensures NamesOnlyLien(w.state, r, c)
    {
      assert r in t.rows && IsActiveFor(r, c);
      var i :| 0 <= i < |t.rows| && t.rows[i] == r;
      ActiveRowNamesLien(w, c, r);
    }
  }
}
