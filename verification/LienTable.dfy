/** The liens table of the off-chain index, under its partial unique index
    (one active row per cadastral number) and its foreign key on parcels. */
module LienTable {
  import opened Borsh

  type Uuid = nat
  type Time = int

  const ZERO_UUID: Uuid := 0

  datatype LienStatus = Active | Released | Disputed

  /** The text of a wallet column: the base58 text of a key, or any other text. */
  datatype Wallet = Base58(key: Pubkey) | OtherText(text: Bytes)

  /** The columns an insert supplies. */
  datatype Lien = Lien(parcelId: Uuid, cadastral: Bytes, lenderWallet: Wallet, lenderName: Bytes,
                       amountTenge: I64, notaryCertHash: Bytes)

  datatype Row = Row(lien: Lien, status: LienStatus, registeredAt: Time, releasedAt: Option<Time>)

  /** Rows are never deleted and their random ids never collide, so a row's
      position stands for its id. */
  datatype Table = Table(parcelIds: set<Uuid>, rows: seq<Row>)

  datatype DbError = DoublePledge | ForeignKey | NotFound | OtherViolation

  datatype Result<+T> = Ok(value: T) | Err(error: DbError)

  /** The characters of a UTF-8 text: its bytes that do not continue a character. */
  function Chars(text: Bytes): nat {
    if text == [] then 0
    else Chars(text[..|text| - 1]) + (if 0x80 <= text[|text| - 1] < 0xC0 then 0 else 1)
  }

  lemma {:induction false} CharsAtMost(text: Bytes)
    ensures Chars(text) <= |text|
  {
    if text != [] {
      CharsAtMost(text[..|text| - 1]);
    }
  }

  ghost predicate IsAscii(text: Bytes) {
    forall i :: 0 <= i < |text| ==> text[i] < 0x80
  }

  lemma {:induction false} AsciiChars(text: Bytes)
    requires IsAscii(text)
    ensures Chars(text) == |text|
  {
    if text != [] {
      AsciiChars(text[..|text| - 1]);
    }
  }

  /** However many bytes a character takes, it counts once. */
  lemma {:induction false} CharCountsOnce(text: Bytes, lead: Byte, more: Bytes)
    requires lead >= 0xC0 && forall i :: 0 <= i < |more| ==> 0x80 <= more[i] < 0xC0
    ensures Chars(text + [lead] + more) == Chars(text) + 1
  {
    var whole := text + [lead] + more;
    if more == [] {
      assert whole[..|whole| - 1] == text;
    } else {
      CharCountsOnce(text, lead, more[..|more| - 1]);
      assert whole[..|whole| - 1] == text + [lead] + more[..|more| - 1];
    }
  }

  /** PostgreSQL text never holds a zero byte, and a VARCHAR(n) at most n characters. */
  predicate Fits(text: Bytes, width: nat) {
    0 !in text && Chars(text) <= width
  }

  /** Some column refuses its text. The base58 text of a key always fits. */
  predicate Refused(lien: Lien) {
    || !Fits(lien.cadastral, 20)
    || (lien.lenderWallet.OtherText? && !Fits(lien.lenderWallet.text, 44))
    || !Fits(lien.lenderName, 100)
    || !Fits(lien.notaryCertHash, 64)
  }

  /** In ASCII: a column refuses a zero byte, a cadastral number over 20 bytes, a
      wallet over 44, a lender name over 100, a hash over 64, and nothing else. */
  lemma AsciiRefused(lien: Lien, wallet: Bytes)
    requires lien.lenderWallet == OtherText(wallet) && IsAscii(wallet)
    requires IsAscii(lien.cadastral) && IsAscii(lien.lenderName) && IsAscii(lien.notaryCertHash)
    ensures Refused(lien)
            <==> 0 in lien.cadastral || 0 in wallet || 0 in lien.lenderName || 0 in lien.notaryCertHash
                 || |lien.cadastral| > 20 || |wallet| > 44 || |lien.lenderName| > 100 || |lien.notaryCertHash| > 64
  {
    AsciiChars(lien.cadastral);
    AsciiChars(wallet);
    AsciiChars(lien.lenderName);
    AsciiChars(lien.notaryCertHash);
  }

  predicate IsActiveFor(r: Row, cadastral: Bytes) {
    r.status.Active? && r.lien.cadastral == cadastral
  }

  /** `SELECT ... WHERE cadastral_number = $1 AND status = 'active' LIMIT 1`. */
  function FindActive(rows: seq<Row>, cadastral: Bytes): (id: Option<nat>)
    ensures id.Some? ==> id.value < |rows| && IsActiveFor(rows[id.value], cadastral)
    ensures id.None? ==> forall i :: 0 <= i < |rows| ==> !IsActiveFor(rows[i], cadastral)
  {
    if rows == [] then None
    else
      var last := |rows| - 1;
      var earlier := FindActive(rows[..last], cadastral);
      if earlier.Some? then earlier
      else if IsActiveFor(rows[last], cadastral) then Some(last)
      else None
  }

  /** The same with `AND lender_wallet = $1`. */
  function FindByWallet(rows: seq<Row>, wallet: Wallet, cadastral: Bytes): (id: Option<nat>)
    ensures id.Some? ==> id.value < |rows| && IsActiveFor(rows[id.value], cadastral)
                         && rows[id.value].lien.lenderWallet == wallet
                         && forall i :: 0 <= i < id.value ==>
                              !(IsActiveFor(rows[i], cadastral) && rows[i].lien.lenderWallet == wallet)
    ensures id.None? ==> forall i :: 0 <= i < |rows| ==>
                             !(IsActiveFor(rows[i], cadastral) && rows[i].lien.lenderWallet == wallet)
  {
    if rows == [] then None
    else
      var last := |rows| - 1;
      var earlier := FindByWallet(rows[..last], wallet, cadastral);
      if earlier.Some? then earlier
      else if IsActiveFor(rows[last], cadastral) && rows[last].lien.lenderWallet == wallet then Some(last)
      else None
  }

  function InsertError(t: Table, lien: Lien): Option<DbError> {
    if Refused(lien) then Some(OtherViolation)
    else if FindActive(t.rows, lien.cadastral).Some? then Some(DoublePledge)
    else if lien.parcelId !in t.parcelIds then Some(ForeignKey)
    else None
  }

  /** Inserting an active row. */
  function Insert(t: Table, lien: Lien, now: Time): Table {
    if InsertError(t, lien) == None then t.(rows := t.rows + [Row(lien, Active, now, None)]) else t
  }

  /** The unique index also guards an update that would make a row active. */
  function UpdateError(t: Table, id: nat, status: LienStatus): Option<DbError> {
    if id >= |t.rows| then Some(NotFound)
    else if status.Active? && var other := FindActive(t.rows, t.rows[id].lien.cadastral);
                              other.Some? && !t.rows[id].status.Active?
    then Some(OtherViolation)
    else None
  }

  function SetStatus(t: Table, id: nat, status: LienStatus, now: Time): Table {
    if UpdateError(t, id, status) != None then t
    else
      var r := t.rows[id].(status := status);
      t.(rows := t.rows[id := if status.Released? then r.(releasedAt := Some(now)) else r])
  }

  function RowsOf(rows: seq<Row>, cadastral: Bytes): seq<Row> {
    if rows == [] then []
    else
      var last := |rows| - 1;
      RowsOf(rows[..last], cadastral) + (if rows[last].lien.cadastral == cadastral then [rows[last]] else [])
  }

  function ActiveOf(rows: seq<Row>): seq<Row> {
    if rows == [] then []
    else
      var last := |rows| - 1;
      ActiveOf(rows[..last]) + (if rows[last].status.Active? then [rows[last]] else [])
  }

  /** What every table written through Insert and releases satisfies. */
  ghost predicate UniqueActive(t: Table) {
    forall i, j :: 0 <= i < j < |t.rows| && t.rows[i].status.Active? && t.rows[j].status.Active? ==>
                     t.rows[i].lien.cadastral != t.rows[j].lien.cadastral
  }

  ghost predicate ReleasesStamped(t: Table) {
    forall i :: 0 <= i < |t.rows| ==> (t.rows[i].releasedAt.Some? <==> t.rows[i].status.Released?)
  }

  lemma InsertKeepsSafe(t: Table, lien: Lien, now: Time)
    requires UniqueActive(t) && ReleasesStamped(t)
    ensures UniqueActive(Insert(t, lien, now)) && ReleasesStamped(Insert(t, lien, now))
  {
    assert FindActive(t.rows, lien.cadastral).None? ==>
        forall i :: 0 <= i < |t.rows| && t.rows[i].status.Active? ==> !IsActiveFor(t.rows[i], lien.cadastral);
  }

  lemma ReleaseKeepsSafe(t: Table, id: nat, now: Time)
    requires UniqueActive(t) && ReleasesStamped(t)
    ensures UniqueActive(SetStatus(t, id, Released, now)) && ReleasesStamped(SetStatus(t, id, Released, now))
  {
  }

  /** Row i was released now; nothing else changed. */
  ghost predicate OnlyReleased(rows: seq<Row>, rows': seq<Row>, i: nat, now: Time) {
    && i < |rows| == |rows'|
    && rows'[i] == Row(rows[i].lien, Released, rows[i].registeredAt, Some(now))
    && forall k :: 0 <= k < |rows| && k != i ==> rows'[k] == rows[k]
  }

  /** How many rows a cadastral has with each status. */
  function StatusCount(rows: seq<Row>, cadastral: Bytes, status: LienStatus): nat {
    if rows == [] then 0
    else
      var last := rows[|rows| - 1];
      StatusCount(rows[..|rows| - 1], cadastral, status)
      + (if last.lien.cadastral == cadastral && last.status == status then 1 else 0)
  }

  lemma {:induction false} StatusesAddUp(rows: seq<Row>, c: Bytes)
    ensures |RowsOf(rows, c)|
            == StatusCount(rows, c, Active) + StatusCount(rows, c, Released) + StatusCount(rows, c, Disputed)
  {
    if rows != [] {
      StatusesAddUp(rows[..|rows| - 1], c);
    }
  }

  lemma {:induction false} OneActiveRow(t: Table, c: Bytes)
    requires UniqueActive(t)
    ensures StatusCount(t.rows, c, Active) == if FindActive(t.rows, c).Some? then 1 else 0
    decreases |t.rows|
  {
    if t.rows != [] {
      OneActiveRow(t.(rows := t.rows[..|t.rows| - 1]), c);
    }
  }

  /** No change of status makes a second active row either: the index refuses to
      bring a row back exactly when another holds its cadastral. */
  lemma UpdateKeepsUnique(t: Table, id: nat, status: LienStatus, now: Time)
    requires UniqueActive(t)
    ensures UniqueActive(SetStatus(t, id, status, now))
    ensures UpdateError(t, id, status) == Some(OtherViolation)
            <==> id < |t.rows| && status.Active? && !t.rows[id].status.Active?
                 && exists i :: 0 <= i < |t.rows| && IsActiveFor(t.rows[i], t.rows[id].lien.cadastral)
  {
  }

  // --------------------------------------------------- ORDER BY registered_at DESC

  function InsertNewest(r: Row, rows: seq<Row>): (s: seq<Row>)
    ensures |s| == |rows| + 1
  {
    if rows == [] || rows[0].registeredAt <= r.registeredAt then [r] + rows
    else [rows[0]] + InsertNewest(r, rows[1..])
  }

  function NewestFirst(rows: seq<Row>): seq<Row> {
    if rows == [] then [] else InsertNewest(rows[|rows| - 1], NewestFirst(rows[..|rows| - 1]))
  }

  ghost predicate IsNewestFirst(rows: seq<Row>) {
    forall i :: 0 < i < |rows| ==> rows[i - 1].registeredAt >= rows[i].registeredAt
  }

  lemma {:induction false} InsertedNewest(r: Row, rows: seq<Row>)
    requires IsNewestFirst(rows)
    ensures IsNewestFirst(InsertNewest(r, rows))
    ensures multiset(InsertNewest(r, rows)) == multiset(rows) + multiset{r}
    ensures InsertNewest(r, rows)[0] == r || (rows != [] && InsertNewest(r, rows)[0] == rows[0])
  {
    if rows != [] && rows[0].registeredAt > r.registeredAt {
      InsertedNewest(r, rows[1..]);
      assert rows == [rows[0]] + rows[1..];
    }
  }

  /** The query's answer is the rows themselves, in descending order of time. */
  lemma {:induction false} SameRows(rows: seq<Row>)
    ensures IsNewestFirst(NewestFirst(rows))
    ensures multiset(NewestFirst(rows)) == multiset(rows) && |NewestFirst(rows)| == |rows|
  {
    if rows != [] {
      var init, last := rows[..|rows| - 1], rows[|rows| - 1];
      SameRows(init);
      InsertedNewest(last, NewestFirst(init));
      assert rows == init + [last];
    }
    assert |multiset(NewestFirst(rows))| == |NewestFirst(rows)| && |multiset(rows)| == |rows|;
  }

  lemma {:induction false} ActiveMembers(rows: seq<Row>, r: Row)
    ensures r in ActiveOf(rows) <==> r in rows && r.status.Active?
  {
    if rows != [] {
      var init, last := rows[..|rows| - 1], rows[|rows| - 1];
      ActiveMembers(init, r);
      assert rows == init + [last];
    }
  }

  lemma {:induction false} OwnMembers(rows: seq<Row>, cadastral: Bytes, r: Row)
    ensures r in RowsOf(rows, cadastral) <==> r in rows && r.lien.cadastral == cadastral
  {
    if rows != [] {
      var init, last := rows[..|rows| - 1], rows[|rows| - 1];
      OwnMembers(init, cadastral, r);
      assert rows == init + [last];
    }
  }

  lemma AppendRow(rows: seq<Row>, r: Row, cadastral: Bytes)
    ensures RowsOf(rows + [r], cadastral)
            == RowsOf(rows, cadastral) + (if r.lien.cadastral == cadastral then [r] else [])
  {
    assert (rows + [r])[..|rows|] == rows;
  }

  /** Changing a row's status does not change how many rows a cadastral has. */
  lemma {:induction false} UpdateRow(rows: seq<Row>, id: nat, r: Row, cadastral: Bytes)
    requires id < |rows| && r.lien == rows[id].lien
    ensures |RowsOf(rows[id := r], cadastral)| == |RowsOf(rows, cadastral)|
  {
    var last := |rows| - 1;
    if id < last {
      UpdateRow(rows[..last], id, r, cadastral);
      assert rows[id := r][..last] == rows[..last][id := r];
    } else {
      assert rows[id := r][..last] == rows[..last];
    }
  }

  class LienPG {
    const parcelIds: set<Uuid>
    var rows: seq<Row>

    constructor (parcelIds: set<Uuid>)
      ensures Contents() == Table(parcelIds, [])
    {
      this.parcelIds, rows := parcelIds, [];
    }

    function Contents(): Table
      reads this
    {
      Table(parcelIds, rows)
    }

    method Create(lien: Lien, now: Time) returns (r: Result<nat>)
      modifies this
      ensures Contents() == Insert(old(Contents()), lien, now)
      ensures r.Ok? ==> r.value == |old(rows)| && rows == old(rows) + [Row(lien, Active, now, None)]
      ensures r.Err? ==> rows == old(rows)
      ensures r == Err(OtherViolation) <==> Refused(lien)
      ensures r == Err(DoublePledge) <==>
              !Refused(lien) && exists i :: 0 <= i < |old(rows)| && IsActiveFor(old(rows)[i], lien.cadastral)
      ensures r == Err(ForeignKey) <==>
              && !Refused(lien) && lien.parcelId !in parcelIds
              && forall i :: 0 <= i < |old(rows)| ==> !IsActiveFor(old(rows)[i], lien.cadastral)
      ensures r.Err? ==> r.error != NotFound
    {
      if Refused(lien) { return Err(OtherViolation); }
      if FindActive(rows, lien.cadastral).Some? { return Err(DoublePledge); }
      if lien.parcelId !in parcelIds { return Err(ForeignKey); }
      r := Ok(|rows|);
      rows := rows + [Row(lien, Active, now, None)];
    }

    method GetByID(id: nat) returns (r: Result<Row>)
      ensures r == if id < |rows| then Ok(rows[id]) else Err(NotFound)
    {
      if id < |rows| { r := Ok(rows[id]); } else { r := Err(NotFound); }
    }

    /** A cadastral number holding a zero byte makes the query itself fail. */
    method GetActive(cadastral: Bytes) returns (r: Result<nat>)
      ensures r.Ok? ==> r.value < |rows| && IsActiveFor(rows[r.value], cadastral)
      ensures r == Err(OtherViolation) <==> 0 in cadastral
      ensures r == Err(NotFound) <==> 0 !in cadastral && forall i :: 0 <= i < |rows| ==> !IsActiveFor(rows[i], cadastral)
      ensures r.Ok? || r == Err(OtherViolation) || r == Err(NotFound)
    {
      if 0 in cadastral { return Err(OtherViolation); }
      match FindActive(rows, cadastral)
      case Some(id) => r := Ok(id);
      case None => r := Err(NotFound);
    }

    method FindByWalletAndCadastral(wallet: Wallet, cadastral: Bytes) returns (r: Result<nat>)
      ensures r.Ok? ==> r.value < |rows| && IsActiveFor(rows[r.value], cadastral)
                        && rows[r.value].lien.lenderWallet == wallet
                        && forall i :: 0 <= i < r.value ==>
                             !(IsActiveFor(rows[i], cadastral) && rows[i].lien.lenderWallet == wallet)
      ensures r == Err(OtherViolation) <==> 0 in cadastral
      ensures r == Err(NotFound) <==> 0 !in cadastral && forall i :: 0 <= i < |rows| ==>
                                        !(IsActiveFor(rows[i], cadastral) && rows[i].lien.lenderWallet == wallet)
      ensures r.Ok? || r == Err(OtherViolation) || r == Err(NotFound)
    {
      if 0 in cadastral { return Err(OtherViolation); }
      match FindByWallet(rows, wallet, cadastral)
      case Some(id) => r := Ok(id);
      case None => r := Err(NotFound);
    }

    method UpdateStatus(id: nat, status: LienStatus, now: Time) returns (err: Option<DbError>)
      modifies this
      ensures Contents() == SetStatus(old(Contents()), id, status, now)
      ensures err == UpdateError(old(Contents()), id, status)
      ensures err == Some(NotFound) <==> id >= |old(rows)|
      ensures err.Some? ==> rows == old(rows)
      ensures err.None? ==>
                && |rows| == |old(rows)| && rows[id].lien == old(rows)[id].lien && rows[id].status == status
                && rows[id].registeredAt == old(rows)[id].registeredAt
                && rows[id].releasedAt == (if status == Released then Some(now) else old(rows)[id].releasedAt)
                && forall i :: 0 <= i < |rows| && i != id ==> rows[i] == old(rows)[i]
    {
      if id >= |rows| { return Some(NotFound); }
      var r := rows[id];
      if status.Active? && !r.status.Active? && FindActive(rows, r.lien.cadastral).Some? {
        return Some(OtherViolation);
      }
      r := r.(status := status);
      if status.Released? {
        r := r.(releasedAt := Some(now));
      }
      rows := rows[id := r];
      return None;
    }

    /** Scans the query's rows, newest first, into a list. */
    method ListByParcel(cadastral: Bytes) returns (r: Result<seq<Row>>)
      ensures r == if 0 in cadastral then Err(OtherViolation) else Ok(NewestFirst(RowsOf(rows, cadastral)))
    {
      if 0 in cadastral { return Err(OtherViolation); }
      var query := NewestFirst(RowsOf(rows, cadastral));
      var liens := [];
      for i := 0 to |query|
        invariant liens == query[..i]
      {
        liens := liens + [query[i]];
      }
      assert query[..|query|] == query;
      r := Ok(liens);
    }
  }

  /** The encumbrance part of a credit profile. */
  datatype EncumbranceData = EncumbranceData(activeLiens: seq<Row>, lienCountHistorical: nat, doublePledgeRisk: bool)

  /** A cadastral's rows, newest first, or none when the query fails. */
  function LiensOf(t: Table, cadastral: Bytes): seq<Row> {
    if 0 in cadastral then [] else NewestFirst(RowsOf(t.rows, cadastral))
  }

  function Profile(t: Table, cadastral: Bytes): EncumbranceData {
    var liens := LiensOf(t, cadastral);
    EncumbranceData(ActiveOf(liens), |liens|, |ActiveOf(liens)| > 0)
  }

  method FilterActiveLiens(liens: seq<Row>) returns (active: seq<Row>)
    ensures active == ActiveOf(liens)
  {
    active := [];
    for i := 0 to |liens|
      invariant active == ActiveOf(liens[..i])
    {
      assert liens[..i + 1][..i] == liens[..i];
      if liens[i].status.Active? {
        active := active + [liens[i]];
      }
    }
    assert liens[..|liens|] == liens;
  }

  /** What the profile reports about a cadastral number, read off the table. */
  method BuildEncumbranceData(repo: LienPG, cadastral: Bytes) returns (d: EncumbranceData)
    ensures d == Profile(repo.Contents(), cadastral)
    ensures 0 !in cadastral ==>
              (d.doublePledgeRisk <==> exists i :: 0 <= i < |repo.rows| && IsActiveFor(repo.rows[i], cadastral))
    ensures 0 !in cadastral ==> d.lienCountHistorical == |RowsOf(repo.rows, cadastral)|
  {
    var listed := repo.ListByParcel(cadastral);
    var liens := if listed.Ok? then listed.value else [];
    var active := FilterActiveLiens(liens);
    if 0 !in cadastral {
      ProfileCounts(repo.Contents(), cadastral);
    }
    d := EncumbranceData(active, |liens|, |active| > 0);
  }

  /** The profile's numbers, in terms of the table's rows. */
  lemma ProfileCounts(t: Table, cadastral: Bytes)
    requires 0 !in cadastral
    ensures Profile(t, cadastral).doublePledgeRisk <==> FindActive(t.rows, cadastral).Some?
    ensures Profile(t, cadastral).lienCountHistorical == |RowsOf(t.rows, cadastral)|
    ensures forall r :: r in Profile(t, cadastral).activeLiens <==> r in t.rows && IsActiveFor(r, cadastral)
  {
    var own, liens := RowsOf(t.rows, cadastral), LiensOf(t, cadastral);
    SameRows(own);
    forall r
      ensures r in ActiveOf(liens) <==> r in t.rows && IsActiveFor(r, cadastral)
    {
      ActiveMembers(liens, r);
      OwnMembers(t.rows, cadastral, r);
      assert r in own <==> r in multiset(own);
      assert r in liens <==> r in multiset(liens);
    }
    if FindActive(t.rows, cadastral).Some? {
      var r := t.rows[FindActive(t.rows, cadastral).value];
      assert r in ActiveOf(liens);
    }
    assert ActiveOf(liens) != [] ==> ActiveOf(liens)[0] in ActiveOf(liens);
  }
}
