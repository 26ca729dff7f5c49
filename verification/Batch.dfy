/** ProcessBatch as a state machine: a loop that spawns one worker per parcel
    behind a semaphore of three, and a wait group it waits on. */
module Batch {
  import opened Borsh

  const MAX_WORKERS := 3

  /** How a worker's fetch ended. */
  datatype Outcome = Failed | Fetched(score: real)

  /** A worker's program counter; it gives its token back before leaving the group. */
  datatype Phase =
    | Idle
    | Fetching
    | Holding(score: real)            // fetched, about to lock and store
    | Finishing(outcome: Outcome)     // about to release the semaphore
    | Leaving(outcome: Outcome)       // about to call wg.Done
    | Done(outcome: Outcome)

  datatype Main = Selecting | Spawning | Waiting | Returned(early: bool)

  datatype State = State(
    parcels: seq<Bytes>, next: nat, tokens: nat, wg: nat, workers: seq<Phase>,
    results: map<Bytes, real>, cancelled: bool, main: Main)

  datatype Action =
    | Acquire | Spawn | EndLoop | Return | ReturnEarly | Cancel
    | FetchOk(i: nat, score: real) | FetchErr(i: nat) | Store(i: nat) | Release(i: nat) | Leave(i: nat)

  function Init(parcels: seq<Bytes>): State {
    State(parcels, 0, 0, 0, seq(|parcels|, _ => Idle), map[], false, Selecting)
  }

  predicate Enabled(s: State, a: Action) {
    match a
    case Acquire => s.main.Selecting? && s.next < |s.parcels| && s.tokens < MAX_WORKERS
    case Spawn => s.main.Spawning? && s.next < |s.workers|
    case EndLoop => s.main.Selecting? && s.next == |s.parcels|
    case Return => s.main.Waiting? && s.wg == 0
    case ReturnEarly => s.main.Selecting? && s.next < |s.parcels| && s.cancelled
    case Cancel => !s.cancelled
    case FetchOk(i, _) => i < |s.workers| && s.workers[i].Fetching?
    case FetchErr(i) => i < |s.workers| && s.workers[i].Fetching?
    case Store(i) => i < |s.workers| == |s.parcels| && s.workers[i].Holding?
    case Release(i) => i < |s.workers| && s.workers[i].Finishing? && s.tokens > 0
    case Leave(i) => i < |s.workers| && s.workers[i].Leaving? && s.wg > 0
  }

  function Next(s: State, a: Action): State
    requires Enabled(s, a)
  {
    match a
    case Acquire => s.(tokens := s.tokens + 1, main := Spawning)
    case Spawn => s.(wg := s.wg + 1, workers := s.workers[s.next := Fetching], next := s.next + 1, main := Selecting)
    case EndLoop => s.(main := Waiting)
    case Return => s.(main := Returned(false))
    case ReturnEarly => s.(main := Returned(true))
    case Cancel => s.(cancelled := true)
    case FetchOk(i, score) => s.(workers := s.workers[i := Holding(score)])
    case FetchErr(i) => s.(workers := s.workers[i := Finishing(Failed)])
    case Store(i) =>
      var score := s.workers[i].score;
      s.(results := s.results[s.parcels[i] := score], workers := s.workers[i := Finishing(Fetched(score))])
    case Release(i) => s.(tokens := s.tokens - 1, workers := s.workers[i := Leaving(s.workers[i].outcome)])
    case Leave(i) => s.(wg := s.wg - 1, workers := s.workers[i := Done(s.workers[i].outcome)])
  }

  /** The state after a schedule, if every action in it was enabled. */
  function Play(s: State, acts: seq<Action>): Option<State> {
    if acts == [] then Some(s)
    else
      var before, last := Play(s, acts[..|acts| - 1]), acts[|acts| - 1];
      if before.Some? && Enabled(before.value, last) then Some(Next(before.value, last)) else None
  }

  ghost predicate Runs(s: State, acts: seq<Action>, t: State) {
    Play(s, acts) == Some(t)
  }

  // ------------------------------------------------------------- invariant

  predicate HoldsToken(p: Phase) { p.Fetching? || p.Holding? || p.Finishing? }
  predicate InGroup(p: Phase) { HoldsToken(p) || p.Leaving? }
  predicate IsFetching(p: Phase) { p.Fetching? }

  /** The fetch of this worker succeeded and its score has been stored. */
  predicate Stored(p: Phase, score: real) {
    (p.Finishing? || p.Leaving? || p.Done?) && p.outcome == Fetched(score)
  }

  function Count(ws: seq<Phase>, f: Phase -> bool): nat {
    if ws == [] then 0 else Count(ws[..|ws| - 1], f) + (if f(ws[|ws| - 1]) then 1 else 0)
  }

  ghost predicate ResultsMatch(s: State) {
    && (forall i, v :: 0 <= i < |s.workers| == |s.parcels| && Stored(s.workers[i], v) ==> s.parcels[i] in s.results)
    && (forall c <- s.results :: exists i :: 0 <= i < |s.workers| == |s.parcels| && s.parcels[i] == c
                                             && Stored(s.workers[i], s.results[c]))
  }

  ghost predicate Inv(s: State) {
    && |s.workers| == |s.parcels| && s.next <= |s.parcels|
    && (forall i :: 0 <= i < |s.workers| ==> (s.workers[i].Idle? <==> i >= s.next))
    && s.tokens == Count(s.workers, HoldsToken) + (if s.main.Spawning? then 1 else 0)
    && s.tokens <= MAX_WORKERS
    && s.wg == Count(s.workers, InGroup)
    && (s.main.Spawning? ==> s.next < |s.parcels|)
    && (s.main.Waiting? ==> s.next == |s.parcels|)
    && (s.main.Returned? ==> if s.main.early then s.cancelled else s.next == |s.parcels| && s.wg == 0)
    && ResultsMatch(s)
  }

  lemma {:induction false} CountUpdate(ws: seq<Phase>, i: nat, p: Phase, f: Phase -> bool)
    requires i < |ws|
    ensures Count(ws[i := p], f) == Count(ws, f) - (if f(ws[i]) then 1 else 0) + (if f(p) then 1 else 0)
  {
    var n := |ws| - 1;
    if i < n {
      CountUpdate(ws[..n], i, p, f);
      assert ws[i := p][..n] == ws[..n][i := p];
    } else {
      assert ws[i := p][..n] == ws[..n];
    }
  }

  lemma {:induction false} CountPositive(ws: seq<Phase>, f: Phase -> bool)
    ensures Count(ws, f) > 0 <==> exists i :: 0 <= i < |ws| && f(ws[i])
  {
    if ws != [] {
      var n := |ws| - 1;
      CountPositive(ws[..n], f);
      if Count(ws[..n], f) > 0 {
        var i :| 0 <= i < n && f(ws[..n][i]);
        assert f(ws[i]);
      }
      assert forall i :: 0 <= i < n ==> ws[..n][i] == ws[i];
    }
  }

  lemma {:induction false} CountLess(ws: seq<Phase>, f: Phase -> bool, g: Phase -> bool)
    requires forall p :: f(p) ==> g(p)
    ensures Count(ws, f) <= Count(ws, g)
  {
    if ws != [] {
      CountLess(ws[..|ws| - 1], f, g);
    }
  }

  /** The worker an action moves, and the phase it moves to. */
  function Moved(s: State, a: Action): Option<nat> {
    match a
    case Spawn => Some(s.next)
    case FetchOk(i, _) => Some(i)
    case FetchErr(i) => Some(i)
    case Store(i) => Some(i)
    case Release(i) => Some(i)
    case Leave(i) => Some(i)
    case _ => None
  }

  lemma StoreKeepsResults(s: State, i: nat)
    requires Inv(s) && Enabled(s, Store(i))
    ensures ResultsMatch(Next(s, Store(i)))
  {
    var t := Next(s, Store(i));
    assert Stored(t.workers[i], s.workers[i].score);
    forall c | c in t.results
      ensures exists k :: 0 <= k < |t.workers| && t.parcels[k] == c && Stored(t.workers[k], t.results[c])
    {
      if s.parcels[i] != c {
        var k :| 0 <= k < |s.workers| && s.parcels[k] == c && Stored(s.workers[k], s.results[c]);
        assert t.workers[k] == s.workers[k];
      }
    }
  }

  lemma OtherKeepsResults(s: State, t: State)
    requires Inv(s) && t.parcels == s.parcels && t.results == s.results && |t.workers| == |s.workers|
    requires forall i, v :: 0 <= i < |s.workers| ==> (Stored(t.workers[i], v) <==> Stored(s.workers[i], v))
    ensures ResultsMatch(t)
  {
    forall c | c in t.results
      ensures exists k :: 0 <= k < |t.workers| && t.parcels[k] == c && Stored(t.workers[k], t.results[c])
    {
      var k :| 0 <= k < |s.workers| && s.parcels[k] == c && Stored(s.workers[k], s.results[c]);
      assert Stored(t.workers[k], t.results[c]);
    }
  }

  lemma NextKeepsResults(s: State, a: Action)
    requires Inv(s) && Enabled(s, a)
    ensures ResultsMatch(Next(s, a))
  {
    if a.Store? {
      StoreKeepsResults(s, a.i);
    } else {
      OtherKeepsResults(s, Next(s, a));
    }
  }

  lemma MainStepInv(s: State, a: Action)
    requires Inv(s) && Enabled(s, a) && Moved(s, a) == None
    ensures Inv(Next(s, a))
  {
    NextKeepsResults(s, a);
  }

  lemma SpawnInv(s: State)
    requires Inv(s) && Enabled(s, Spawn)
    ensures Inv(Next(s, Spawn))
  {
    NextKeepsResults(s, Spawn);
    CountUpdate(s.workers, s.next, Fetching, HoldsToken);
    CountUpdate(s.workers, s.next, Fetching, InGroup);
  }

  lemma WorkerStepInv(s: State, a: Action)
    requires Inv(s) && Enabled(s, a) && Moved(s, a).Some? && !a.Spawn?
    ensures Inv(Next(s, a))
  {
    NextKeepsResults(s, a);
    var i := Moved(s, a).value;
    var p := Next(s, a).workers[i];
    CountUpdate(s.workers, i, p, HoldsToken);
    CountUpdate(s.workers, i, p, InGroup);
  }

  lemma NextInv(s: State, a: Action)
    requires Inv(s) && Enabled(s, a)
    ensures Inv(Next(s, a))
  {
    if a.Spawn? {
      SpawnInv(s);
    } else if Moved(s, a).Some? {
      WorkerStepInv(s, a);
    } else {
      MainStepInv(s, a);
    }
  }

  lemma {:induction false} CountIdle(n: nat, f: Phase -> bool)
    requires !f(Idle)
    ensures Count(seq(n, _ => Idle), f) == 0
  {
    if n > 0 {
      CountIdle(n - 1, f);
      assert seq(n, _ => Idle)[..n - 1] == seq(n - 1, _ => Idle);
    }
  }

  lemma {:induction false} RunInv(parcels: seq<Bytes>, acts: seq<Action>, t: State)
    requires Runs(Init(parcels), acts, t)
    ensures Inv(t) && t.parcels == parcels
  {
    if acts == [] {
      CountIdle(|parcels|, HoldsToken);
      CountIdle(|parcels|, InGroup);
    } else {
      var mid := Play(Init(parcels), acts[..|acts| - 1]).value;
      RunInv(parcels, acts[..|acts| - 1], mid);
      NextInv(mid, acts[|acts| - 1]);
    }
  }

  /** In every schedule at most three workers are fetching at once. */
  lemma AtMostThreeFetching(parcels: seq<Bytes>, acts: seq<Action>, t: State)
    requires Runs(Init(parcels), acts, t)
    ensures Count(t.workers, IsFetching) <= 3
  {
    RunInv(parcels, acts, t);
    CountLess(t.workers, IsFetching, HoldsToken);
  }

  /** The loop's choices, both of a select when both are ready: it can start the
      next worker exactly when fewer than three hold a token, cancelled or not, and
      return early exactly when cancelled. */
  lemma SelectChoices(parcels: seq<Bytes>, acts: seq<Action>, t: State)
    requires Runs(Init(parcels), acts, t) && t.main.Selecting? && t.next < |parcels|
    ensures Enabled(t, Acquire) <==> Count(t.workers, HoldsToken) < 3
    ensures Enabled(t, ReturnEarly) <==> t.cancelled
    ensures !Enabled(t, EndLoop)
  {
    RunInv(parcels, acts, t);
  }

  function Starts(k: nat): seq<Action> {
    if k == 0 then [] else Starts(k - 1) + [Acquire] + [Spawn]
  }

  lemma {:induction false} CountFirst(ws: seq<Phase>, k: nat)
    requires k <= |ws| && forall i :: 0 <= i < |ws| ==> ws[i] == if i < k then Fetching else Idle
    ensures Count(ws, IsFetching) == k
  {
    if ws != [] {
      CountFirst(ws[..|ws| - 1], if k < |ws| then k else k - 1);
    }
  }

  /** With enough parcels, one, two and three workers do fetch at once. */
  lemma {:induction false} ThreeFetchReached(parcels: seq<Bytes>, k: nat) returns (t: State)
    requires k <= 3 && k <= |parcels|
    ensures Runs(Init(parcels), Starts(k), t) && Count(t.workers, IsFetching) == k
    ensures t.main.Selecting? && t.next == t.tokens == k && |t.workers| == |t.parcels| == |parcels|
    ensures forall i :: 0 <= i < |parcels| ==> t.workers[i] == if i < k then Fetching else Idle
  {
    if k == 0 {
      t := Init(parcels);
    } else {
      var s := ThreeFetchReached(parcels, k - 1);
      var mid := Next(s, Acquire);
      t := Next(mid, Spawn);
      PlayAppend(Init(parcels), Starts(k - 1), Acquire);
      PlayAppend(Init(parcels), Starts(k - 1) + [Acquire], Spawn);
    }
    CountFirst(t.workers, k);
  }

  lemma PlayAppend(s: State, acts: seq<Action>, a: Action)
    requires Play(s, acts).Some? && Enabled(Play(s, acts).value, a)
    ensures Play(s, acts + [a]) == Some(Next(Play(s, acts).value, a))
  {
    assert (acts + [a])[..|acts|] == acts;
  }

  // ----------------------------------------------------------- termination

  function PhaseRank(p: Phase): nat {
    match p case Idle => 5 case Fetching => 4 case Holding(_) => 3 case Finishing(_) => 2 case Leaving(_) => 1 case Done(_) => 0
  }

  function WorkersRank(ws: seq<Phase>): nat {
    if ws == [] then 0 else WorkersRank(ws[..|ws| - 1]) + PhaseRank(ws[|ws| - 1])
  }

  function MainRank(s: State): int {
    match s.main
    case Selecting => 2 * (|s.parcels| - s.next) + 2
    case Spawning => 2 * (|s.parcels| - s.next) + 1
    case Waiting => 1
    case Returned(_) => 0
  }

  function Rank(s: State): int {
    WorkersRank(s.workers) + MainRank(s) + (if s.cancelled then 0 else 1)
  }

  lemma {:induction false} RankUpdate(ws: seq<Phase>, i: nat, p: Phase)
    requires i < |ws|
    ensures WorkersRank(ws[i := p]) == WorkersRank(ws) - PhaseRank(ws[i]) + PhaseRank(p)
  {
    var n := |ws| - 1;
    if i < n {
      RankUpdate(ws[..n], i, p);
      assert ws[i := p][..n] == ws[..n][i := p];
    } else {
      assert ws[i := p][..n] == ws[..n];
    }
  }

  lemma NextLowersRank(s: State, a: Action)
    requires Inv(s) && Enabled(s, a)
    ensures 0 <= Rank(Next(s, a)) < Rank(s)
  {
    var m := Moved(s, a);
    if m.Some? {
      RankUpdate(s.workers, m.value, Next(s, a).workers[m.value]);
    }
  }

  lemma {:induction false} IdleRank(n: nat)
    ensures WorkersRank(seq(n, _ => Idle)) == 5 * n
  {
    if n > 0 {
      IdleRank(n - 1);
      assert seq(n, _ => Idle)[..n - 1] == seq(n - 1, _ => Idle);
    }
  }

  /** No schedule is longer than seven actions per parcel plus three. */
  lemma {:induction false} EveryScheduleEnds(parcels: seq<Bytes>, acts: seq<Action>, t: State)
    requires Runs(Init(parcels), acts, t)
    ensures Rank(t) >= 0 && |acts| + Rank(t) <= 7 * |parcels| + 3
  {
    if acts == [] {
      IdleRank(|parcels|);
    } else {
      var mid := Play(Init(parcels), acts[..|acts| - 1]).value;
      EveryScheduleEnds(parcels, acts[..|acts| - 1], mid);
      RunInv(parcels, acts[..|acts| - 1], mid);
      NextLowersRank(mid, acts[|acts| - 1]);
    }
  }

  /** Nothing but a cancellation can still happen. */
  ghost predicate Stuck(s: State) {
    forall a :: Enabled(s, a) ==> a.Cancel?
  }

  lemma WorkerCanMove(s: State, i: nat)
    requires Inv(s) && i < |s.workers| && InGroup(s.workers[i])
    ensures !Stuck(s)
  {
    CountPositive(s.workers, InGroup);
    CountPositive(s.workers, HoldsToken);
    var p := s.workers[i];
    if p.Fetching? {
      assert Enabled(s, FetchErr(i));
    } else if p.Holding? {
      assert Enabled(s, Store(i));
    } else if p.Finishing? {
      assert HoldsToken(p) && Enabled(s, Release(i));
    } else {
      assert Enabled(s, Leave(i));
    }
  }

  /** There is no deadlock: a schedule that cannot be extended has returned with no
      worker running, and, unless it was cancelled, has finished every parcel. */
  lemma StuckIsReturned(parcels: seq<Bytes>, acts: seq<Action>, t: State)
    requires Runs(Init(parcels), acts, t) && Stuck(t)
    ensures t.main.Returned?
    ensures forall i :: 0 <= i < |t.workers| ==> t.workers[i].Idle? || t.workers[i].Done?
    ensures !t.cancelled ==> t.main == Returned(false) && forall i :: 0 <= i < |t.workers| ==> t.workers[i].Done?
  {
    RunInv(parcels, acts, t);
    forall i | 0 <= i < |t.workers|
      ensures !InGroup(t.workers[i])
    {
      if InGroup(t.workers[i]) {
        WorkerCanMove(t, i);
      }
    }
    CountPositive(t.workers, InGroup);
    CountPositive(t.workers, HoldsToken);
    assert !Enabled(t, Acquire) && !Enabled(t, Spawn) && !Enabled(t, EndLoop) && !Enabled(t, Return);
  }

  // --------------------------------------------------------------- results

  /** A batch that waits for its workers returns exactly the cadastrals for which
      some fetch succeeded, each mapped to a score one of its fetches returned,
      and nothing can change the map any more. */
  lemma WaitedResults(parcels: seq<Bytes>, acts: seq<Action>, t: State)
    requires Runs(Init(parcels), acts, t) && t.main == Returned(false)
    ensures |t.workers| == |parcels| && forall i :: 0 <= i < |parcels| ==> t.workers[i].Done?
    ensures forall c :: c in t.results <==>
                          exists i :: 0 <= i < |parcels| && parcels[i] == c && t.workers[i].outcome.Fetched?
    ensures forall c <- t.results :: exists i :: 0 <= i < |parcels| && parcels[i] == c
                                                 && t.workers[i] == Done(Fetched(t.results[c]))
    ensures Stuck(t)
  {
    RunInv(parcels, acts, t);
    CountPositive(t.workers, InGroup);
    forall i | 0 <= i < |parcels|
      ensures t.workers[i].Done?
    {
      assert !InGroup(t.workers[i]);
    }
    forall i | 0 <= i < |parcels| && t.workers[i].outcome.Fetched?
      ensures parcels[i] in t.results
    {
      assert Stored(t.workers[i], t.workers[i].outcome.score);
    }
    forall c | c in t.results
      ensures exists i :: 0 <= i < |parcels| && parcels[i] == c && t.workers[i] == Done(Fetched(t.results[c]))
    {
      var i :| 0 <= i < |t.workers| && t.parcels[i] == c && Stored(t.workers[i], t.results[c]);
      assert t.workers[i] == Done(Fetched(t.results[c]));
    }
  }

  /** Worker i still has a write to make that the returned map would show. */
  predicate WritePending(s: State, i: nat) {
    i < |s.workers| == |s.parcels|
    && (s.workers[i].Fetching?
        || (s.workers[i].Holding?
            && !(s.parcels[i] in s.results && s.results[s.parcels[i]] == s.workers[i].score)))
  }

  ghost predicate Changes(t: State, more: seq<Action>, t': State) {
    Runs(t, more, t') && t'.results != t.results
  }

  /** A cancelled batch returns without waiting. After any return the map handed to
      the caller can still change exactly when some worker is fetching, or holds a
      score the map does not show yet. */
  lemma ReturnedMapChangesIff(parcels: seq<Bytes>, acts: seq<Action>, t: State)
    requires Runs(Init(parcels), acts, t) && t.main.Returned?
    ensures (exists more, t' :: Changes(t, more, t')) <==> (exists i :: WritePending(t, i))
  {
    RunInv(parcels, acts, t);
    if i :| WritePending(t, i) {
      PendingWriteLands(t, i);
    } else {
      forall more, t' | Runs(t, more, t')
        ensures t'.results == t.results
      {
        NothingPendingIsFinal(t, more, t');
      }
    }
  }

  lemma PendingWriteLands(t: State, i: nat)
    requires WritePending(t, i)
    ensures exists more, t' :: Changes(t, more, t')
  {
    var c := t.parcels[i];
    if t.workers[i].Fetching? {
      var score := if c in t.results && t.results[c] == 0.0 then 1.0 else 0.0;
      var mid := Next(t, FetchOk(i, score));
      var t' := Next(mid, Store(i));
      PlayTwo(t, FetchOk(i, score), Store(i));
      assert t'.results[c] == score;
      assert Changes(t, [FetchOk(i, score), Store(i)], t');
    } else {
      var t' := Next(t, Store(i));
      PlayOne(t, Store(i));
      assert t'.results[c] == t.workers[i].score;
      assert Changes(t, [Store(i)], t');
    }
  }

  lemma PlayOne(s: State, a: Action)
    requires Enabled(s, a)
    ensures Play(s, [a]) == Some(Next(s, a))
  {
    assert [a][..0] == [];
  }

  lemma PlayTwo(s: State, a: Action, b: Action)
    requires Enabled(s, a) && Enabled(Next(s, a), b)
    ensures Play(s, [a, b]) == Some(Next(Next(s, a), b))
  {
    PlayOne(s, a);
    assert [a, b][..1] == [a];
  }

  ghost predicate NothingPending(t: State) {
    t.main.Returned? && |t.workers| == |t.parcels| && forall i :: !WritePending(t, i)
  }

  lemma {:induction false} NothingPendingIsFinal(t: State, more: seq<Action>, t': State)
    requires NothingPending(t) && Runs(t, more, t')
    ensures t'.results == t.results && NothingPending(t')
  {
    if more != [] {
      var mid := Play(t, more[..|more| - 1]).value;
      NothingPendingIsFinal(t, more[..|more| - 1], mid);
      StillNothingPending(mid, more[|more| - 1]);
    }
  }

  lemma StillNothingPending(t: State, a: Action)
    requires NothingPending(t) && Enabled(t, a)
    ensures Next(t, a).results == t.results && NothingPending(Next(t, a))
  {
    var m := Moved(t, a);
    if m.Some? {
      assert !WritePending(t, m.value);
    }
    forall i: nat
      ensures !WritePending(Next(t, a), i)
    {
      assert !WritePending(t, i);
    }
  }

  /** Such a return is reached as soon as there are two parcels: cancel after the
      first worker has started. */
  lemma EarlyReturnReached(parcels: seq<Bytes>)
    requires |parcels| >= 2
    ensures var acts := [Acquire, Spawn, Cancel, ReturnEarly];
            exists t :: Runs(Init(parcels), acts, t) && t.main == Returned(true) && WritePending(t, 0)
  {
    var acts := [Acquire, Spawn, Cancel, ReturnEarly];
    var s0 := Init(parcels);
    PlayTwo(s0, Acquire, Spawn);
    var s2 := Next(Next(s0, Acquire), Spawn);
    assert acts[..3][..2] == [Acquire, Spawn];
    var s3 := Next(s2, Cancel);
    assert Play(s0, acts[..3]) == Some(s3);
    var t := Next(s3, ReturnEarly);
    assert Runs(s0, acts, t) && WritePending(t, 0);
  }
}
