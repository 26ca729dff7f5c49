/** REST requests and webhook events interleaving on the liens table. Each
    database call is atomic; anything may run between two calls of a request. */
module LienApi {
  import opened Borsh
  import opened Accounts
  import opened LienTable
  import opened Webhook

  datatype RegisterInput = RegisterInput(cadastral: Bytes, lenderWallet: Wallet, amountTenge: I64, notaryCertHash: Bytes)

  /** Where a request stands between its database calls. */
  datatype Phase =
    | Unclaimed(input: RegisterInput, lenderName: Bytes)   // GetActive found no active row
    | Located(lien: Lien)                                  // the parcel row was found
    | Authorized(id: nat)                                  // the caller may release row id
    | Matched(id: nat)                                     // a release event found its row
    | Answered(status: int)

  datatype System = System(table: Table, parcels: map<Bytes, Uuid>, requests: map<nat, Phase>)

  datatype Action =
    | BeginRegister(r: nat, input: RegisterInput, lenderName: Bytes)
    | LookupParcel(r: nat)
    | CreateLien(r: nat, now: Time)
    | BeginRelease(r: nat, id: nat, lender: Option<Bytes>)
    | FinishRelease(r: nat, now: Time)
    | HookRegister(event: Registered, now: Time)
    | HookFindRelease(r: nat, wallet: Wallet, cadastral: Bytes)
    | HookFinishRelease(r: nat, now: Time)
    | FailRequest(r: nat)                                  // a database error ends the request
    | AddParcel(cadastral: Bytes, id: Uuid)

  /** The row a request asks for, once its parcel is known. */
  function LienFor(parcelId: Uuid, input: RegisterInput, lenderName: Bytes): Lien {
    Lien(parcelId, input.cadastral, input.lenderWallet, lenderName, input.amountTenge, input.notaryCertHash)
  }

  function At(sys: System, r: nat, phase: Phase): System {
    sys.(requests := sys.requests[r := phase])
  }

  /** One atomic step; an action that is not enabled changes nothing. */
  function Next(sys: System, act: Action): System {
    match act
    case BeginRegister(r, input, lenderName) =>
      if r in sys.requests then sys
      else if 0 in input.cadastral then At(sys, r, Answered(500))
      else if FindActive(sys.table.rows, input.cadastral).Some? then At(sys, r, Answered(409))
      else At(sys, r, Unclaimed(input, lenderName))
    case LookupParcel(r) =>
      if r !in sys.requests || !sys.requests[r].Unclaimed? then sys
      else
        var input := sys.requests[r].input;
        if input.cadastral !in sys.parcels then At(sys, r, Answered(404))
        else At(sys, r, Located(LienFor(sys.parcels[input.cadastral], input, sys.requests[r].lenderName)))
    case CreateLien(r, now) =>
      if r !in sys.requests || !sys.requests[r].Located? then sys
      else
        var lien := sys.requests[r].lien;
        At(sys, r, Answered(if InsertError(sys.table, lien) == None then 201 else 500))
          .(table := Insert(sys.table, lien, now))
    case BeginRelease(r, id, lender) =>
      if r in sys.requests then sys
      else if id >= |sys.table.rows| then At(sys, r, Answered(404))
      else if lender != Some(sys.table.rows[id].lien.lenderName) then At(sys, r, Answered(403))
      else At(sys, r, Authorized(id))
    case FinishRelease(r, now) =>
      if r !in sys.requests || !sys.requests[r].Authorized? then sys
      else
        var id := sys.requests[r].id;
        At(sys, r, Answered(if UpdateError(sys.table, id, Released) == None then 200 else 500))
          .(table := SetStatus(sys.table, id, Released, now))
    case HookRegister(event, now) =>
      sys.(table := Insert(sys.table, IndexedLien(event), now))
    case HookFindRelease(r, wallet, cadastral) =>
      if r in sys.requests then sys
      else
        var id := FindByWallet(sys.table.rows, wallet, cadastral);
        At(sys, r, if 0 !in cadastral && id.Some? then Matched(id.value) else Answered(200))
    case HookFinishRelease(r, now) =>
      if r !in sys.requests || !sys.requests[r].Matched? then sys
      else At(sys, r, Answered(200)).(table := SetStatus(sys.table, sys.requests[r].id, Released, now))
    case FailRequest(r) =>
      if r !in sys.requests || sys.requests[r].Answered? then sys else At(sys, r, Answered(500))
    case AddParcel(cadastral, id) =>
      if cadastral in sys.parcels || id in sys.table.parcelIds || !Fits(cadastral, 20) then sys
      else sys.(parcels := sys.parcels[cadastral := id],
                table := sys.table.(parcelIds := sys.table.parcelIds + {id}))
  }

  function Play(sys: System, acts: seq<Action>): System {
    if acts == [] then sys else Next(Play(sys, acts[..|acts| - 1]), acts[|acts| - 1])
  }

  // -------------------------------------------------------------- safety

  ghost predicate Safe(t: Table) {
    UniqueActive(t) && ReleasesStamped(t)
  }

  lemma NextSafe(sys: System, act: Action)
    requires Safe(sys.table)
    ensures Safe(Next(sys, act).table)
  {
    match act
    case CreateLien(r, now) =>
      if r in sys.requests && sys.requests[r].Located? {
        InsertKeepsSafe(sys.table, sys.requests[r].lien, now);
      }
    case HookRegister(event, now) => InsertKeepsSafe(sys.table, IndexedLien(event), now);
    case FinishRelease(r, now) =>
      if r in sys.requests && sys.requests[r].Authorized? {
        ReleaseKeepsSafe(sys.table, sys.requests[r].id, now);
      }
    case HookFinishRelease(r, now) =>
      if r in sys.requests && sys.requests[r].Matched? {
        ReleaseKeepsSafe(sys.table, sys.requests[r].id, now);
      }
    case _ =>
  }

  /** In every interleaving: never two active rows for one cadastral, and a
      release time exactly on released rows. */
  lemma {:induction false} EveryScheduleSafe(sys: System, acts: seq<Action>)
    requires Safe(sys.table)
    ensures Safe(Play(sys, acts).table)
  {
    if acts != [] {
      EveryScheduleSafe(sys, acts[..|acts| - 1]);
      NextSafe(Play(sys, acts[..|acts| - 1]), acts[|acts| - 1]);
    }
  }

  /** Rows are only appended; a row keeps its lien and its registration time, and
      once released it stays released. */
  ghost predicate Evolves(t: Table, t': Table) {
    && |t.rows| <= |t'.rows|
    && forall i :: 0 <= i < |t.rows| ==>
         && t'.rows[i].lien == t.rows[i].lien
         && t'.rows[i].registeredAt == t.rows[i].registeredAt
         && (t.rows[i].status.Released? ==> t'.rows[i].status.Released?)
         && (t'.rows[i].status.Active? ==> t.rows[i].status.Active?)
  }

  lemma NextEvolves(sys: System, act: Action)
    ensures Evolves(sys.table, Next(sys, act).table)
  {
  }

  /** From any point of any interleaving on, no released row becomes active again. */
  lemma {:induction false} ReleasedIsFinal(sys: System, acts: seq<Action>)
    ensures Evolves(sys.table, Play(sys, acts).table)
  {
    if acts != [] {
      ReleasedIsFinal(sys, acts[..|acts| - 1]);
      NextEvolves(Play(sys, acts[..|acts| - 1]), acts[|acts| - 1]);
    }
  }

  /** Once a request is answered its answer stands, whatever runs. */
  lemma {:induction false} AnswersAreFinal(sys: System, acts: seq<Action>, r: nat)
    requires r in sys.requests && sys.requests[r].Answered?
    ensures r in Play(sys, acts).requests && Play(sys, acts).requests[r] == sys.requests[r]
  {
    if acts != [] {
      AnswersAreFinal(sys, acts[..|acts| - 1], r);
      NextKeepsAnswer(Play(sys, acts[..|acts| - 1]), acts[|acts| - 1], r);
    }
  }

  lemma NextKeepsAnswer(sys: System, act: Action, r: nat)
    requires r in sys.requests && sys.requests[r].Answered?
    ensures r in Next(sys, act).requests && Next(sys, act).requests[r] == sys.requests[r]
  {
  }

  /** A database error in the middle of a request answers it 500 and writes nothing. */
  lemma FailedIs500(sys: System, r: nat)
    requires r in sys.requests && !sys.requests[r].Answered?
    ensures Next(sys, FailRequest(r)) == sys.(requests := sys.requests[r := Answered(500)])
  {
  }

  // ---------------------------------------------------------- accounting

  /** The action inserts an active row for cadastral c. */
  predicate Wins(sys: System, act: Action, c: Bytes) {
    match act
    case CreateLien(r, _) =>
      && r in sys.requests && sys.requests[r].Located? && sys.requests[r].lien.cadastral == c
      && InsertError(sys.table, sys.requests[r].lien) == None
    case HookRegister(event, _) => event.cadastral == c && InsertError(sys.table, IndexedLien(event)) == None
    case _ => false
  }

  /** The action releases a row of c that was active until then. */
  predicate Frees(sys: System, act: Action, c: Bytes) {
    match act
    case FinishRelease(r, _) =>
      && r in sys.requests && sys.requests[r].Authorized? && sys.requests[r].id < |sys.table.rows|
      && IsActiveFor(sys.table.rows[sys.requests[r].id], c)
    case HookFinishRelease(r, _) =>
      && r in sys.requests && sys.requests[r].Matched? && sys.requests[r].id < |sys.table.rows|
      && IsActiveFor(sys.table.rows[sys.requests[r].id], c)
    case _ => false
  }

  function WinCount(sys: System, acts: seq<Action>, c: Bytes): nat {
    if acts == [] then 0
    else
      var init := acts[..|acts| - 1];
      WinCount(sys, init, c) + (if Wins(Play(sys, init), acts[|acts| - 1], c) then 1 else 0)
  }

  function FreeCount(sys: System, acts: seq<Action>, c: Bytes): nat {
    if acts == [] then 0
    else
      var init := acts[..|acts| - 1];
      FreeCount(sys, init, c) + (if Frees(Play(sys, init), acts[|acts| - 1], c) then 1 else 0)
  }

  function Held(t: Table, c: Bytes): nat {
    if FindActive(t.rows, c).Some? then 1 else 0
  }

  lemma HeldBy(t: Table, c: Bytes, i: nat)
    requires i < |t.rows| && IsActiveFor(t.rows[i], c)
    ensures Held(t, c) == 1
  {
  }

  lemma InsertHolds(t: Table, lien: Lien, now: Time, c: Bytes)
    ensures Held(Insert(t, lien, now), c)
            == Held(t, c) + (if lien.cadastral == c && InsertError(t, lien) == None then 1 else 0)
  {
    var t' := Insert(t, lien, now);
    if InsertError(t, lien) == None {
      assert t'.rows[..|t.rows|] == t.rows;
    }
  }

  lemma ReleaseHolds(t: Table, id: nat, now: Time, c: Bytes)
    requires UniqueActive(t)
    ensures Held(SetStatus(t, id, Released, now), c)
            == Held(t, c) - (if id < |t.rows| && IsActiveFor(t.rows[id], c) then 1 else 0)
  {
    var t' := SetStatus(t, id, Released, now);
    if id < |t.rows| {
      assert forall i :: 0 <= i < |t.rows| && i != id ==> t'.rows[i] == t.rows[i];
      if IsActiveFor(t.rows[id], c) {
        HeldBy(t, c, id);
        assert forall i :: 0 <= i < |t'.rows| ==> !IsActiveFor(t'.rows[i], c);
      } else if FindActive(t.rows, c).Some? {
        HeldBy(t', c, FindActive(t.rows, c).value);
      } else {
        assert forall i :: 0 <= i < |t'.rows| ==> !IsActiveFor(t'.rows[i], c);
      }
    }
  }

  lemma NextHolds(sys: System, act: Action, c: Bytes)
    requires UniqueActive(sys.table)
    ensures Held(Next(sys, act).table, c)
            == Held(sys.table, c) + (if Wins(sys, act, c) then 1 else 0) - (if Frees(sys, act, c) then 1 else 0)
  {
    match act
    case CreateLien(r, now) =>
      if r in sys.requests && sys.requests[r].Located? {
        InsertHolds(sys.table, sys.requests[r].lien, now, c);
      }
    case HookRegister(event, now) => InsertHolds(sys.table, IndexedLien(event), now, c);
    case FinishRelease(r, now) =>
      if r in sys.requests && sys.requests[r].Authorized? {
        ReleaseHolds(sys.table, sys.requests[r].id, now, c);
      }
    case HookFinishRelease(r, now) =>
      if r in sys.requests && sys.requests[r].Matched? {
        ReleaseHolds(sys.table, sys.requests[r].id, now, c);
      }
    case _ =>
  }

  /** However many registrations race, from any table on: successful inserts for a
      cadastral and effective releases of it balance against the active row. */
  lemma {:induction false} WinsAreBalanced(sys: System, acts: seq<Action>, c: Bytes)
    requires Safe(sys.table)
    ensures WinCount(sys, acts, c) + Held(sys.table, c) == FreeCount(sys, acts, c) + Held(Play(sys, acts).table, c)
  {
    if acts != [] {
      var init := acts[..|acts| - 1];
      WinsAreBalanced(sys, init, c);
      EveryScheduleSafe(sys, init);
      NextHolds(Play(sys, init), acts[|acts| - 1], c);
    }
  }

  // ------------------------------------------- the gap between check and insert

  /** Every parcel the lookup can find is a row the foreign key knows. */
  ghost predicate ParcelsKnown(sys: System) {
    forall c <- sys.parcels :: sys.parcels[c] in sys.table.parcelIds
  }

  /** Request r is this registration, past its check: it waits for the lookup or
      for the insert, or has been answered. */
  ghost predicate Serves(sys: System, r: nat, input: RegisterInput, lenderName: Bytes) {
    && r in sys.requests
    && match sys.requests[r]
       case Unclaimed(i, n) => i == input && n == lenderName
       case Located(lien) => lien == LienFor(lien.parcelId, input, lenderName) && lien.parcelId in sys.table.parcelIds
       case Answered(_) => true
       case _ => false
  }

  lemma {:induction false} StillServes(sys: System, acts: seq<Action>, r: nat, input: RegisterInput, lenderName: Bytes)
    requires ParcelsKnown(sys) && Serves(sys, r, input, lenderName)
    ensures ParcelsKnown(Play(sys, acts)) && Serves(Play(sys, acts), r, input, lenderName)
  {
    if acts != [] {
      StillServes(sys, acts[..|acts| - 1], r, input, lenderName);
      NextServes(Play(sys, acts[..|acts| - 1]), acts[|acts| - 1], r, input, lenderName);
    }
  }

  lemma NextServes(sys: System, act: Action, r: nat, input: RegisterInput, lenderName: Bytes)
    requires ParcelsKnown(sys) && Serves(sys, r, input, lenderName)
    ensures ParcelsKnown(Next(sys, act)) && Serves(Next(sys, act), r, input, lenderName)
  {
    var sys' := Next(sys, act);
    assert sys.table.parcelIds <= sys'.table.parcelIds;
    assert act.AddParcel? || sys'.parcels == sys.parcels;
  }

  /** Some text of the request fits no column; the parcel plays no part. */
  predicate Unstorable(input: RegisterInput, lenderName: Bytes) {
    Refused(LienFor(ZERO_UUID, input, lenderName))
  }

  predicate AwaitsInsert(sys: System, r: nat) {
    r in sys.requests && sys.requests[r].Located?
  }

  /** When a registration that passed its check is refused. Its check finds no
      active row; then anything runs, among it the request's own lookup; then it
      inserts. Over every such interleaving the answer is 500, never the 409 of a
      double pledge, exactly when more rows of the cadastral were inserted than
      released in between, or a column cannot hold the request's text. */
  lemma RefusedIffOvertaken(sys: System, r: nat, input: RegisterInput, lenderName: Bytes, mid: seq<Action>, now: Time)
    requires Safe(sys.table) && ParcelsKnown(sys) && r !in sys.requests
    requires FindActive(sys.table.rows, input.cadastral) == None && 0 !in input.cadastral
    requires AwaitsInsert(Play(Next(sys, BeginRegister(r, input, lenderName)), mid), r)
    ensures var start, c := Next(sys, BeginRegister(r, input, lenderName)), input.cadastral;
            var end := Next(Play(start, mid), CreateLien(r, now));
            && (end.requests[r] == Answered(500)
                <==> WinCount(start, mid, c) > FreeCount(start, mid, c) || Unstorable(input, lenderName))
            && (end.requests[r] == Answered(201)
                <==> WinCount(start, mid, c) == FreeCount(start, mid, c) && !Unstorable(input, lenderName))
  {
    var start := Next(sys, BeginRegister(r, input, lenderName));
    StillServes(start, mid, r, input, lenderName);
    EveryScheduleSafe(start, mid);
    WinsAreBalanced(start, mid, input.cadastral);
    AnsweredByHeld(Play(start, mid), r, input, lenderName, now);
  }

  lemma AnsweredByHeld(sys: System, r: nat, input: RegisterInput, lenderName: Bytes, now: Time)
    requires Serves(sys, r, input, lenderName) && AwaitsInsert(sys, r)
    ensures Next(sys, CreateLien(r, now)).requests[r]
            == Answered(if Unstorable(input, lenderName) || Held(sys.table, input.cadastral) == 1 then 500 else 201)
  {
  }

  /** The refusal is reached: of two requests that both pass the check, the second
      to insert is answered 500, though a request that begins after the first has
      inserted is answered 409. */
  lemma LoserOfRace(sys: System, i1: RegisterInput, i2: RegisterInput, n1: Bytes, n2: Bytes, r1: nat, r2: nat,
                    t1: Time, t2: Time)
    requires r1 != r2 && r1 !in sys.requests && r2 !in sys.requests && i1.cadastral == i2.cadastral
    requires !Unstorable(i1, n1) && !Unstorable(i2, n2)
    requires i1.cadastral in sys.parcels && sys.parcels[i1.cadastral] in sys.table.parcelIds
    requires FindActive(sys.table.rows, i1.cadastral) == None
    ensures var check := Next(Next(sys, BeginRegister(r1, i1, n1)), BeginRegister(r2, i2, n2));
            var located := Next(Next(check, LookupParcel(r1)), LookupParcel(r2));
            var done := Next(Next(located, CreateLien(r1, t1)), CreateLien(r2, t2));
            done.requests[r1] == Answered(201) && done.requests[r2] == Answered(500)
            && done.table == Next(located, CreateLien(r1, t1)).table
    ensures var first := Next(Next(Next(sys, BeginRegister(r1, i1, n1)), LookupParcel(r1)), CreateLien(r1, t1));
            Next(first, BeginRegister(r2, i2, n2)).requests[r2] == Answered(409)
  {
    var c1 := Next(sys, BeginRegister(r1, i1, n1));
    assert c1 == At(sys, r1, Unclaimed(i1, n1));
    var check := Next(c1, BeginRegister(r2, i2, n2));
    assert check == At(c1, r2, Unclaimed(i2, n2));
    var id := sys.parcels[i1.cadastral];
    var lien1, lien2 := LienFor(id, i1, n1), LienFor(id, i2, n2);
    var l1 := Next(check, LookupParcel(r1));
    assert l1 == At(check, r1, Located(lien1));
    var located := Next(l1, LookupParcel(r2));
    assert located == At(l1, r2, Located(lien2));
    SecondInsertRefused(located, r1, r2, lien1, lien2, t1, t2);
    var one := Next(c1, LookupParcel(r1));
    assert one == At(c1, r1, Located(lien1));
    FirstInsertHolds(one, r1, lien1, t1);
  }

  lemma FirstInsertHolds(sys: System, r: nat, lien: Lien, now: Time)
    requires r in sys.requests && sys.requests[r] == Located(lien) && InsertError(sys.table, lien) == None
    ensures var done := Next(sys, CreateLien(r, now));
            && done.requests == sys.requests[r := Answered(201)]
            && FindActive(done.table.rows, lien.cadastral).Some?
  {
    assert IsActiveFor(Insert(sys.table, lien, now).rows[|sys.table.rows|], lien.cadastral);
  }

  lemma SecondInsertRefused(sys: System, r1: nat, r2: nat, lien1: Lien, lien2: Lien, t1: Time, t2: Time)
    requires r1 != r2 && lien1.cadastral == lien2.cadastral
    requires r1 in sys.requests && sys.requests[r1] == Located(lien1) && InsertError(sys.table, lien1) == None
    requires r2 in sys.requests && sys.requests[r2] == Located(lien2)
    ensures var first := Next(sys, CreateLien(r1, t1));
            var done := Next(first, CreateLien(r2, t2));
            && done.requests == sys.requests[r1 := Answered(201)][r2 := Answered(500)]
            && done.table == first.table
  {
    FirstInsertHolds(sys, r1, lien1, t1);
  }

  // ------------------------------------------------------------- handlers

  // ------------------------------------------------------------ who can release

  /** Playing a whole registration, nothing else running. */
  function AfterRegister(sys: System, input: RegisterInput, lenderName: Bytes, now: Time): System {
    Next(Next(Next(sys, BeginRegister(0, input, lenderName)), LookupParcel(0)), CreateLien(0, now))
  }

  function AfterRelease(sys: System, id: nat, lender: Option<Bytes>, now: Time): System {
    Next(Next(sys, BeginRelease(1, id, lender)), FinishRelease(1, now))
  }

  lemma RegistersRow(sys: System, input: RegisterInput, lenderName: Bytes, now: Time)
    requires sys.requests == map[] && FindActive(sys.table.rows, input.cadastral) == None
    requires !Unstorable(input, lenderName)
    requires input.cadastral in sys.parcels && sys.parcels[input.cadastral] in sys.table.parcelIds
    ensures var done := AfterRegister(sys, input, lenderName, now);
            && done.requests == map[0 := Answered(201)]
            && done.table.rows == sys.table.rows
                 + [Row(Lien(parcelId := sys.parcels[input.cadastral], cadastral := input.cadastral,
                             lenderWallet := input.lenderWallet, lenderName := lenderName,
                             amountTenge := input.amountTenge, notaryCertHash := input.notaryCertHash),
                        Active, now, None)]
  {
    var lien := LienFor(sys.parcels[input.cadastral], input, lenderName);
    var one := Next(sys, BeginRegister(0, input, lenderName));
    assert one == At(sys, 0, Unclaimed(input, lenderName));
    var two := Next(one, LookupParcel(0));
    assert two == At(one, 0, Located(lien));
    FirstInsertHolds(two, 0, lien, now);
  }

  lemma ReleaseAnswers(sys: System, id: nat, lender: Option<Bytes>, now: Time)
    requires 1 !in sys.requests && id < |sys.table.rows|
    ensures var done, owner := AfterRelease(sys, id, lender, now), Some(sys.table.rows[id].lien.lenderName);
            && done.requests == sys.requests[1 := Answered(if lender == owner then 200 else 403)]
            && (if lender == owner then OnlyReleased(sys.table.rows, done.table.rows, id, now) else done.table == sys.table)
  {
    var asked := Next(sys, BeginRelease(1, id, lender));
    assert asked == At(sys, 1, if lender == Some(sys.table.rows[id].lien.lenderName) then Authorized(id) else Answered(403));
  }

  /** A lender who registers a lien can release it, and no one under another name
      can, nor a caller who is no lender. */
  lemma RegistrantCanRelease(sys: System, input: RegisterInput, lenderName: Bytes, lender: Option<Bytes>, t1: Time, t2: Time)
    requires sys.requests == map[] && FindActive(sys.table.rows, input.cadastral) == None
    requires !Unstorable(input, lenderName)
    requires input.cadastral in sys.parcels && sys.parcels[input.cadastral] in sys.table.parcelIds
    ensures var n, held := |sys.table.rows|, AfterRegister(sys, input, lenderName, t1);
            var done := AfterRelease(held, n, lender, t2);
            && done.requests == map[0 := Answered(201), 1 := Answered(if lender == Some(lenderName) then 200 else 403)]
            && (if lender == Some(lenderName) then OnlyReleased(held.table.rows, done.table.rows, n, t2)
                else done.table == held.table)
  {
    RegistersRow(sys, input, lenderName, t1);
    ReleaseAnswers(AfterRegister(sys, input, lenderName, t1), |sys.table.rows|, lender, t2);
  }

  /** A lien the webhook indexed has no lender name, so over REST every lender with a
      name is answered 403. */
  lemma IndexedLienNeedsNoName(sys: System, event: Registered, now: Time, r: nat, name: Bytes)
    requires InsertError(sys.table, IndexedLien(event)) == None && r !in sys.requests
    ensures var asked := Next(Next(sys, HookRegister(event, now)), BeginRelease(r, |sys.table.rows|, Some(name)));
            asked.requests[r] == if name == [] then Authorized(|sys.table.rows|) else Answered(403)
  {
  }

  /** The step of a registration event does to the table what delivering the event
      is meant to do. */
  lemma HookRegisterIsDelivery(sys: System, c: Text, lender: Pubkey, amount: U64, pda: Address, now: Time)
    ensures Next(sys, HookRegister(Registered(c, lender, amount), now))
            == sys.(table := Intended(sys.table, EncumbranceRegistered(c, lender, amount, pda), now))
  {
  }

  /** So do the two steps of a release event, run undisturbed. */
  lemma HookReleaseIsDelivery(sys: System, r: nat, c: Text, lender: Pubkey, pda: Address, now: Time)
    requires r !in sys.requests
    ensures var done := Next(Next(sys, HookFindRelease(r, Base58(lender), c)), HookFinishRelease(r, now));
            && done.table == Intended(sys.table, EncumbranceReleased(c, lender, pda), now)
            && done.requests == sys.requests[r := Answered(200)]
  {
    var found := Next(sys, HookFindRelease(r, Base58(lender), c));
    var id := FindByWallet(sys.table.rows, Base58(lender), c);
    assert found == At(sys, r, if 0 !in c && id.Some? then Matched(id.value) else Answered(200));
  }

  /** The handlers as they run when nothing interferes: each is its own steps of
      the interleaving, played in order. */
  class LienHandler {
    const lienRepo: LienPG
    const parcels: map<Bytes, Uuid>

    constructor (lienRepo: LienPG, parcels: map<Bytes, Uuid>)
      ensures this.lienRepo == lienRepo && this.parcels == parcels
    {
      this.lienRepo, this.parcels := lienRepo, parcels;
    }

    ghost function Idle(): System
      reads lienRepo
    {
      System(lienRepo.Contents(), parcels, map[])
    }

    method Register(input: RegisterInput, lenderName: Bytes, now: Time) returns (status: int)
      modifies lienRepo
      ensures var end := Play(old(Idle()), [BeginRegister(0, input, lenderName), LookupParcel(0), CreateLien(0, now)]);
              lienRepo.Contents() == end.table && end.requests == map[0 := Answered(status)]
      ensures status == 409 <==> 0 !in input.cadastral && exists i :: 0 <= i < |old(lienRepo.rows)| && IsActiveFor(old(lienRepo.rows)[i], input.cadastral)
      ensures status == 404 <==> 0 !in input.cadastral && status != 409 && input.cadastral !in parcels
      ensures 0 in input.cadastral || (Unstorable(input, lenderName) && status != 409 && status != 404) ==> status == 500
      ensures status == 201 ==>
                && input.cadastral in parcels
                && lienRepo.rows == old(lienRepo.rows)
                     + [Row(Lien(parcelId := parcels[input.cadastral], cadastral := input.cadastral,
                                 lenderWallet := input.lenderWallet, lenderName := lenderName,
                                 amountTenge := input.amountTenge, notaryCertHash := input.notaryCertHash),
                            Active, now, None)]
      ensures status != 201 ==> lienRepo.rows == old(lienRepo.rows)
    {
      PlayThree(Idle(), BeginRegister(0, input, lenderName), LookupParcel(0), CreateLien(0, now));
      var existing := lienRepo.GetActive(input.cadastral);
      if existing == Err(OtherViolation) { return 500; }
      if existing.Ok? { return 409; }
      if input.cadastral !in parcels { return 404; }
      var lien := LienFor(parcels[input.cadastral], input, lenderName);
      var created := lienRepo.Create(lien, now);
      status := if created.Ok? then 201 else 500;
    }

    method Release(id: nat, lender: Option<Bytes>, now: Time) returns (status: int)
      modifies lienRepo
      ensures var end := Play(old(Idle()), [BeginRelease(0, id, lender), FinishRelease(0, now)]);
              lienRepo.Contents() == end.table && end.requests == map[0 := Answered(status)]
      ensures status == 404 <==> id >= |old(lienRepo.rows)|
      ensures status == 403 <==> id < |old(lienRepo.rows)| && lender != Some(old(lienRepo.rows)[id].lien.lenderName)
      ensures status == 200 <==> id < |old(lienRepo.rows)| && lender == Some(old(lienRepo.rows)[id].lien.lenderName)
      ensures status == 200 ==> OnlyReleased(old(lienRepo.rows), lienRepo.rows, id, now)
      ensures status != 200 ==> lienRepo.rows == old(lienRepo.rows)
    {
      PlayTwo(Idle(), BeginRelease(0, id, lender), FinishRelease(0, now));
      var lien := lienRepo.GetByID(id);
      if lien.Err? { return 404; }
      if lender == None || lender.value != lien.value.lien.lenderName { return 403; }
      var err := lienRepo.UpdateStatus(id, Released, now);
      status := if err == None then 200 else 500;
    }
  }

  lemma PlayTwo(sys: System, a: Action, b: Action)
    ensures Play(sys, [a, b]) == Next(Next(sys, a), b)
  {
    assert [a, b][..1] == [a];
    assert [a][..0] == [];
    assert Play(sys, [a]) == Next(Play(sys, []), a);
  }

  lemma PlayThree(sys: System, a: Action, b: Action, c: Action)
    ensures Play(sys, [a, b, c]) == Next(Next(Next(sys, a), b), c)
  {
    PlayTwo(sys, a, b);
    assert [a, b, c][..2] == [a, b];
  }
}
