/** The scoring agent: rescore a parcel each tick, store the score, and write it
    on chain only when it moved enough. */
module Keeper {
  import opened Borsh
  import opened Accounts
  import TerraToken
  import opened Scorer
  import opened InstructionData

  function GradeToU8(grade: string): U8 {
    if grade == "A" then 0 else if grade == "B" then 1 else if grade == "C" then 2 else 3
  }

  /** A better score never gets a worse grade on chain, where 0 is the best. */
  lemma BetterScoreLowerCode(i: int, j: int)
    requires i <= j
    ensures GradeToU8(GradeFromScore(j).0) <= GradeToU8(GradeFromScore(i).0) <= 3
  {
  }

  /** A parcel starts with the code of the worst grade, until it is first assessed. */
  lemma NewParcelIsUngraded(s: State, tx: Tx)
    requires tx.ix.RegisterParcel? && TerraToken.RegisterParcelSpec(s, tx).Committed?
    ensures var p := TerraToken.RegisterParcelSpec(s, tx).state.parcels[tx.ix.parcel];
            p.collateralGrade == GradeToU8("D") && p.aiScore == 0 && p.recommendedLtv == 0
    ensures forall g: string :: GradeToU8(g) <= GradeToU8("D")
  {
  }

  function LtvBasisPoints(ltv: real): U16 {
    LowWord((ltv * 10000.0).Floor)
  }

  lemma LtvInRange(ltv: real)
    requires 0.0 <= ltv <= 1.0
    ensures 0 <= (ltv * 10000.0).Floor <= 10000 && LtvBasisPoints(ltv) == (ltv * 10000.0).Floor
  {
    assert 0.0 <= ltv * 10000.0 <= 10000.0;
  }

  predicate IsScoreChanged(score: CreditScore, prev: CreditScore) {
    var delta := score.aiScore - prev.aiScore;
    (if delta < 0 then -delta else delta) >= 5 || score.grade != prev.grade
  }

  /** The bytes sent for a score. */
  function ScoreBytes(cadastral: Text, s: CreditScore): Bytes {
    RiskBytes(UPDATE_RISK_ASSESSMENT, cadastral, LowByte(s.aiScore), GradeToU8(s.grade), LtvBasisPoints(s.recommendedLtv))
  }

  /** For every valid score the bytes decode on chain to the same cadastral, score
      and grade and to the LTV in basis points, and pass all three range checks. */
  lemma ScoreBytesAccepted(cadastral: Text, s: CreditScore)
    requires Valid(s)
    ensures var ltv := (s.recommendedLtv * 10000.0).Floor;
            && 0 <= ltv <= 10000
            && DecodeRiskArgs(ScoreBytes(cadastral, s))
               == Some(RiskArgs(cadastral, s.aiScore, GradeToU8(s.grade), ltv))
            && TerraToken.CheckRanges(s.aiScore, GradeToU8(s.grade), ltv) == None
  {
    LtvInRange(s.recommendedLtv);
    ScoreBytesDecode(cadastral, s.aiScore, s.grade, s.recommendedLtv);
  }

  lemma ScoreBytesDecode(cadastral: Text, aiScore: U8, grade: string, ltv: real)
    ensures DecodeRiskArgs(ScoreBytes(cadastral, CreditScore(aiScore, ltv, grade)))
            == Some(RiskArgs(cadastral, aiScore, GradeToU8(grade), LtvBasisPoints(ltv)))
  {
    var basisPoints := LtvBasisPoints(ltv);
    RiskBytesDecode(cadastral, aiScore, GradeToU8(grade), basisPoints);
  }

  /** The two builders agree: for a valid score, the keeper's bytes and those the
      SDK builds from the same numbers are equal. */
  method BuildLikeSdk(cadastral: Text, s: ValidScore) returns (go: array<Byte>, ts: array<Byte>)
    ensures fresh(go) && fresh(ts) && go[..] == ts[..] == ScoreBytes(cadastral, s)
  {
    LtvInRange(s.recommendedLtv);
    var grade, ltv := GradeToU8(s.grade), (s.recommendedLtv * 10000.0).Floor;
    go := BuildRiskAssessmentData(UPDATE_RISK_ASSESSMENT, cadastral, LowByte(s.aiScore), grade, LowWord(ltv));
    ts := BuildUpdateRiskAssessment(cadastral, s.aiScore, grade, ltv);
  }

  // ------------------------------------------------------- the stored column

  /** Thousandths of an LTV, as a NUMERIC(4,3) column rounds it. */
  function Mils(ltv: real): int {
    (ltv * 1000.0 + 0.5).Floor
  }

  /** The score a later read finds: its LTV has three decimals. */
  function Rounded(s: ValidScore): ValidScore {
    MilsInRange(s.recommendedLtv);
    s.(recommendedLtv := Mils(s.recommendedLtv) as real / 1000.0)
  }

  lemma MilsInRange(ltv: real)
    requires 0.0 <= ltv <= 1.0
    ensures 0 <= Mils(ltv) <= 1000
  {
    assert 0.5 <= ltv * 1000.0 + 0.5 <= 1000.5;
  }

  /** The stored LTV in basis points, and exactly when it is the LTV itself: when
      the fourth decimal, the last the chain keeps, is zero. */
  lemma RoundedBasisPoints(s: ValidScore)
    ensures LtvBasisPoints(Rounded(s).recommendedLtv) == 10 * Mils(s.recommendedLtv)
    ensures LtvBasisPoints(s.recommendedLtv) == 10 * Mils(s.recommendedLtv)
            <==> LtvBasisPoints(s.recommendedLtv) % 10 == 0
  {
    var l := s.recommendedLtv;
    MilsInRange(l);
    LtvInRange(l);
    LtvInRange(Rounded(s).recommendedLtv);
    assert Rounded(s).recommendedLtv * 10000.0 == (10 * Mils(l)) as real;
    RoundingByDigit(l);
  }

  lemma RoundingByDigit(ltv: real)
    ensures var b := (ltv * 10000.0).Floor;
            10 * Mils(ltv) == if b % 10 < 5 then b - b % 10 else b - b % 10 + 10
  {
    var b := (ltv * 10000.0).Floor;
    var q, r := b / 10, b % 10;
    assert b == 10 * q + r;
    assert (10 * q + r) as real <= ltv * 10000.0 < (10 * q + r + 1) as real;
    if r < 5 {
      assert q as real <= ltv * 1000.0 + 0.5 < (q + 1) as real;
    } else {
      assert (q + 1) as real <= ltv * 1000.0 + 0.5 < (q + 2) as real;
    }
  }

  // --------------------------------------------------------------- one tick

  /** What the outside world does during a tick: whether the seasonal check went
      through, whether the stored score could be read, what the scorer returned,
      and whether the upsert and the risk transaction succeeded. */
  datatype Tick = Tick(seasonalOk: bool, readOk: bool, scored: Option<ValidScore>, upsertOk: bool, sendOk: bool)

  /** The score row as the database holds it, and the parcel account on chain. */
  datatype Desk = Desk(stored: Option<ValidScore>, parcel: ParcelConfig)

  function Previous(d: Desk, t: Tick): Option<ValidScore> {
    if t.readOk then d.stored else None
  }

  /** The tick scores the parcel. */
  predicate Scores(t: Tick) {
    t.seasonalOk && t.scored.Some?
  }

  /** The tick tries to write the score on chain. */
  predicate Sends(d: Desk, t: Tick) {
    Scores(t) && (Previous(d, t).None? || IsScoreChanged(t.scored.value, Previous(d, t).value))
  }

  function AfterTick(d: Desk, t: Tick): Desk {
    if !Scores(t) then d
    else
      var s := t.scored.value;
      var parcel := if Sends(d, t) && t.sendOk
                    then TerraToken.Assess(d.parcel, LowByte(s.aiScore), GradeToU8(s.grade), LtvBasisPoints(s.recommendedLtv))
                    else d.parcel;
      Desk(if t.upsertOk then Some(Rounded(s)) else d.stored, parcel)
  }

  /** What a tick does. It changes nothing when the seasonal check failed or no score
      came; a score in hand is stored, its LTV to the nearest thousandth, if the
      upsert succeeds; and it lands on chain, grade A as 0 and D as 3, exactly when
      the transaction succeeds and the row could not be read, was missing, or is 5
      points or a grade away. */
  lemma TickEffect(d: Desk, t: Tick)
    ensures !t.seasonalOk || t.scored.None? ==> AfterTick(d, t) == d
    ensures t.seasonalOk && t.scored.Some? ==>
              var s, d' := t.scored.value, AfterTick(d, t);
              && (t.upsertOk ==> StoresMarks(d', s))
              && (!t.upsertOk ==> d'.stored == d.stored)
              && (if t.sendOk && (!t.readOk || d.stored.None? || MovedEnough(d.stored.value, s))
                  then Landed(d'.parcel, s) else d'.parcel == d.parcel)
  {
    if t.scored.Some? {
      MilsNearest(t.scored.value.recommendedLtv);
      LtvInRange(t.scored.value.recommendedLtv);
    }
  }

  predicate MovedEnough(before: ValidScore, after: ValidScore) {
    after.aiScore <= before.aiScore - 5 || after.aiScore >= before.aiScore + 5 || after.grade != before.grade
  }

  predicate StoresMarks(d: Desk, s: ValidScore) {
    && d.stored.Some? && d.stored.value.aiScore == s.aiScore && d.stored.value.grade == s.grade
    && -0.0005 <= d.stored.value.recommendedLtv - s.recommendedLtv <= 0.0005
  }

  predicate Landed(p: ParcelConfig, s: ValidScore) {
    && p.aiScore == s.aiScore
    && (p.collateralGrade == 0 <==> s.grade == "A") && (p.collateralGrade == 1 <==> s.grade == "B")
    && (p.collateralGrade == 2 <==> s.grade == "C") && (p.collateralGrade == 3 <==> s.grade == "D")
    && p.recommendedLtv as real <= s.recommendedLtv * 10000.0 < p.recommendedLtv as real + 1.0
  }

  lemma MilsNearest(ltv: real)
    ensures -0.0005 <= Mils(ltv) as real / 1000.0 - ltv <= 0.0005
  {
  }

  /** One parcel's keeper; the relay key is present. */
  class Keeper {
    const cadastral: Text
    var stored: Option<ValidScore>
    var parcel: ParcelConfig

    constructor (cadastral: Text, parcel: ParcelConfig)
      requires parcel.cadastral == cadastral
      ensures Valid() && Contents() == Desk(None, parcel) && this.cadastral == cadastral
    {
      this.cadastral, this.stored, this.parcel := cadastral, None, parcel;
    }

    function Contents(): Desk
      reads this
    {
      Desk(stored, parcel)
    }

    /** The account is the one the keeper's cadastral number derives. */
    ghost predicate Valid()
      reads this
    {
      parcel.cadastral == cadastral
    }

    method ProcessParcel(t: Tick)
      requires Valid()
      modifies this
      ensures Valid()
      ensures Contents() == AfterTick(old(Contents()), t)
    {
      if !t.seasonalOk { return; }
      var prev := if t.readOk then stored else None;
      var newScore := t.scored;
      if newScore.Some? && t.upsertOk {
        stored := Some(Rounded(newScore.value));
      }
      SendRiskAssessment(newScore, prev, t.sendOk);
    }

    method SendRiskAssessment(score: Option<ValidScore>, prev: Option<ValidScore>, sendOk: bool)
      requires Valid()
      modifies this`parcel
      ensures Valid()
      ensures parcel == if score.Some? && sendOk && (prev.None? || IsScoreChanged(score.value, prev.value))
                        then TerraToken.Assess(old(parcel), LowByte(score.value.aiScore), GradeToU8(score.value.grade),
                                               LtvBasisPoints(score.value.recommendedLtv))
                        else old(parcel)
    {
      if score == None { return; }
      if prev.Some? && !IsScoreChanged(score.value, prev.value) { return; }
      var s := score.value;
      var data := BuildRiskAssessmentData(UPDATE_RISK_ASSESSMENT, cadastral, LowByte(s.aiScore),
                                          GradeToU8(s.grade), LtvBasisPoints(s.recommendedLtv));
      if sendOk {
        ScoreBytesAccepted(cadastral, s);
        Land(data[..]);
      }
    }

    /** The program executes the transaction's bytes: it finds the account only under
        the cadastral number they carry. */
    method Land(data: Bytes)
      modifies this`parcel
      ensures parcel == match DecodeRiskArgs(data)
                        case None => old(parcel)
                        case Some(a) => if a.cadastral == old(parcel).cadastral && TerraToken.CheckRanges(a.aiScore, a.grade, a.ltv) == None
                                        then TerraToken.Assess(old(parcel), a.aiScore, a.grade, a.ltv)
                                        else old(parcel)
    {
      var args := DecodeRiskArgs(data);
      if args.Some? && args.value.cadastral == parcel.cadastral && TerraToken.CheckRanges(args.value.aiScore, args.value.grade, args.value.ltv) == None {
        parcel := TerraToken.Assess(parcel, args.value.aiScore, args.value.grade, args.value.ltv);
      }
    }
  }

  // --------------------------------------------------------------- runs

  function Play(d: Desk, ticks: seq<Tick>): Desk {
    if ticks == [] then d else AfterTick(Play(d, ticks[..|ticks| - 1]), ticks[|ticks| - 1])
  }

  /** Scored ticks that wrote nothing, since the last one that did. */
  function Skipped(d: Desk, ticks: seq<Tick>): nat {
    if ticks == [] then 0
    else
      var init, last := ticks[..|ticks| - 1], ticks[|ticks| - 1];
      if Sends(Play(d, init), last) then 0
      else Skipped(d, init) + (if Scores(last) then 1 else 0)
  }

  ghost predicate Reliable(ticks: seq<Tick>) {
    forall i :: 0 <= i < |ticks| ==> ticks[i].upsertOk && ticks[i].sendOk
  }

  /** Some tick of the run tries to write on chain. */
  predicate SomeSend(d: Desk, ticks: seq<Tick>) {
    ticks != [] && (SomeSend(d, ticks[..|ticks| - 1]) || Sends(Play(d, ticks[..|ticks| - 1]), ticks[|ticks| - 1]))
  }

  function Abs(x: int): nat {
    if x < 0 then -x else x
  }

  predicate GradeAgrees(d: Desk) {
    d.stored.Some? && d.parcel.collateralGrade == GradeToU8(d.stored.value.grade)
  }

  predicate LtvAgrees(d: Desk) {
    d.stored.Some? && d.parcel.recommendedLtv == LtvBasisPoints(d.stored.value.recommendedLtv)
  }

  predicate Near(d: Desk, skipped: nat) {
    d.stored.Some? && Abs(d.stored.value.aiScore - d.parcel.aiScore) <= 4 * skipped
  }

  /** From any desk, however stale: once a reliable run writes, the grades agree and
      the scores differ by at most 4 for each scored tick skipped since. */
  lemma {:induction false} CaughtUp(d0: Desk, ticks: seq<Tick>)
    requires Reliable(ticks) && SomeSend(d0, ticks)
    ensures GradeAgrees(Play(d0, ticks)) && Near(Play(d0, ticks), Skipped(d0, ticks))
  {
    var n := |ticks| - 1;
    var init, last := ticks[..n], ticks[n];
    if !Sends(Play(d0, init), last) {
      CaughtUp(d0, init);
    }
  }

  /** While upserts and transactions succeed, from the first scored tick on the
      chain holds the stored grade, and a score off by at most 4 for each scored
      tick skipped since the last write. */
  lemma {:induction false} DeadbandDrift(parcel: ParcelConfig, ticks: seq<Tick>)
    requires Reliable(ticks)
    ensures var d := Play(Desk(None, parcel), ticks);
            && (d.stored.Some? <==> exists i :: 0 <= i < |ticks| && Scores(ticks[i]))
            && (d.stored.Some? ==> GradeAgrees(d) && Near(d, Skipped(Desk(None, parcel), ticks)))
  {
    FirstScoreIsSent(parcel, ticks);
    if SomeSend(Desk(None, parcel), ticks) {
      CaughtUp(Desk(None, parcel), ticks);
    }
  }

  lemma {:induction false} FirstScoreIsSent(parcel: ParcelConfig, ticks: seq<Tick>)
    requires Reliable(ticks)
    ensures Play(Desk(None, parcel), ticks).stored.Some? <==> SomeSend(Desk(None, parcel), ticks)
    ensures Play(Desk(None, parcel), ticks).stored.Some? <==> exists i :: 0 <= i < |ticks| && Scores(ticks[i])
  {
    if ticks != [] {
      var n := |ticks| - 1;
      FirstScoreIsSent(parcel, ticks[..n]);
      assert forall i :: 0 <= i < n ==> ticks[..n][i] == ticks[i];
    }
  }

  /** Reliability is about the two writes agreeing: once the grades agree, a scored
      tick keeps them so exactly when the grade did not change or the upsert and
      the transaction both succeeded or both failed. */
  lemma GradeAgreesIff(d: Desk, t: Tick)
    requires GradeAgrees(d) && Scores(t)
    ensures GradeAgrees(AfterTick(d, t))
            <==> t.scored.value.grade == d.stored.value.grade || (t.upsertOk <==> t.sendOk)
  {
    GradesDistinct(t.scored.value.grade, d.stored.value.grade);
  }

  lemma GradesDistinct(g: string, h: string)
    requires IsGrade(g) && IsGrade(h)
    ensures GradeToU8(g) == GradeToU8(h) <==> g == h
  {
  }

  // ------------------------------------------------- runs where writes may fail

  /** The latest score whose upsert succeeded. */
  function LastStored(ticks: seq<Tick>): Option<ValidScore> {
    if ticks == [] then None
    else
      var last := ticks[|ticks| - 1];
      if Scores(last) && last.upsertOk then last.scored else LastStored(ticks[..|ticks| - 1])
  }

  /** The latest score whose transaction landed. */
  function LastLanded(d: Desk, ticks: seq<Tick>): Option<ValidScore> {
    if ticks == [] then None
    else
      var init, last := ticks[..|ticks| - 1], ticks[|ticks| - 1];
      if Sends(Play(d, init), last) && last.sendOk then last.scored else LastLanded(d, init)
  }

  predicate ChainHolds(p: ParcelConfig, s: ValidScore) {
    && p.aiScore == s.aiScore
    && p.collateralGrade == GradeToU8(s.grade)
    && p.recommendedLtv == LtvBasisPoints(s.recommendedLtv)
  }

  /** Whatever fails along the way: the row is the latest stored score, rounded, and
      the parcel holds the latest landed one. */
  lemma {:induction false} RunOutcome(d: Desk, ticks: seq<Tick>)
    ensures Play(d, ticks).stored
            == if LastStored(ticks).Some? then Some(Rounded(LastStored(ticks).value)) else d.stored
    ensures if LastLanded(d, ticks).Some? then ChainHolds(Play(d, ticks).parcel, LastLanded(d, ticks).value)
            else Play(d, ticks).parcel == d.parcel
  {
    if ticks != [] {
      RunOutcome(d, ticks[..|ticks| - 1]);
    }
  }

  /** Over every run, with any writes failing: what the chain and the database say
      agrees exactly when the latest landed and the latest stored score do; for the
      LTV, when the landed basis points are the stored thousandths. */
  lemma RunAgreesIff(d: Desk, ticks: seq<Tick>)
    requires LastStored(ticks).Some? && LastLanded(d, ticks).Some?
    ensures var s, l, d' := LastStored(ticks).value, LastLanded(d, ticks).value, Play(d, ticks);
            && (GradeAgrees(d') <==> l.grade == s.grade)
            && (Near(d', 0) <==> l.aiScore == s.aiScore)
            && (LtvAgrees(d') <==> LtvBasisPoints(l.recommendedLtv) == 10 * Mils(s.recommendedLtv))
  {
    RunOutcome(d, ticks);
    GradesDistinct(LastLanded(d, ticks).value.grade, LastStored(ticks).value.grade);
    RoundedBasisPoints(LastStored(ticks).value);
  }

  // ------------------------------------------------------- after a failed write

  /** The latest score of a run that follows score s. */
  function Latest(s: ValidScore, ticks: seq<Tick>): ValidScore {
    if ticks == [] then s
    else if Scores(ticks[|ticks| - 1]) then ticks[|ticks| - 1].scored.value
    else Latest(s, ticks[..|ticks| - 1])
  }

  /** Every scored tick reads the row and finds its score inside the deadband of
      the one before. */
  predicate Steady(s: ValidScore, ticks: seq<Tick>) {
    ticks == [] ||
    (var init, last := ticks[..|ticks| - 1], ticks[|ticks| - 1];
     Steady(s, init)
     && (Scores(last) ==> last.readOk && !IsScoreChanged(last.scored.value, Latest(s, init))))
  }

  predicate SameMarks(s: ValidScore, p: ValidScore) {
    s.aiScore == p.aiScore && s.grade == p.grade
  }

  lemma {:induction false} SteadyNeverSends(d: Desk, s: ValidScore, ticks: seq<Tick>)
    requires Reliable(ticks) && d.stored.Some? && SameMarks(d.stored.value, s)
    ensures Play(d, ticks).stored.Some? && SameMarks(Play(d, ticks).stored.value, Latest(s, ticks))
    ensures SomeSend(d, ticks) <==> !Steady(s, ticks)
    ensures Steady(s, ticks) ==> Play(d, ticks).parcel == d.parcel && Latest(s, ticks).grade == s.grade
  {
    if ticks != [] {
      SteadyNeverSends(d, s, ticks[..|ticks| - 1]);
    }
  }

  /** A failed write is not retried: the score is stored before it is sent. When the
      transaction of a stored score s fails, then after any reliable ticks the grade
      on chain is right again exactly when it was s's grade already, or some later
      score left the deadband of its predecessor or could not read it. Then the
      score is within 4 per skip as well. */
  lemma FailedSendRecoversIff(d: Desk, failed: Tick, ticks: seq<Tick>)
    requires Scores(failed) && failed.upsertOk && !failed.sendOk && Reliable(ticks)
    ensures var s, d' := failed.scored.value, Play(AfterTick(d, failed), ticks);
            && (GradeAgrees(d') <==> !Steady(s, ticks) || d.parcel.collateralGrade == GradeToU8(s.grade))
            && (Steady(s, ticks) ==> d'.parcel == d.parcel)
            && (!Steady(s, ticks) ==> Near(d', Skipped(AfterTick(d, failed), ticks)))
  {
    var s, d1 := failed.scored.value, AfterTick(d, failed);
    SteadyNeverSends(d1, s, ticks);
    if !Steady(s, ticks) {
      CaughtUp(d1, ticks);
    }
  }

  function Again(s: ValidScore, n: nat): seq<Tick> {
    seq(n, _ => Tick(true, true, Some(s), true, true))
  }

  /** The stale case lasts: the same score, however often, is steady. */
  lemma {:induction false} RepeatsAreSteady(s: ValidScore, n: nat)
    ensures Reliable(Again(s, n)) && Steady(s, Again(s, n)) && Latest(s, Again(s, n)) == s
  {
    if n > 0 {
      RepeatsAreSteady(s, n - 1);
      assert Again(s, n)[..n - 1] == Again(s, n - 1);
    }
  }

  // ----------------------------------------------------------- loan to value

  /** After a scored tick whose writes succeed the LTV on chain is the stored one
      exactly when it is written and its fourth decimal is zero, or it is skipped
      and rounds to the thousandths the chain has already. */
  lemma LtvAgreesIff(d: Desk, t: Tick)
    requires Scores(t) && t.upsertOk && t.sendOk
    ensures var l := t.scored.value.recommendedLtv;
            LtvAgrees(AfterTick(d, t))
            <==> if Sends(d, t) then LtvBasisPoints(l) % 10 == 0 else d.parcel.recommendedLtv == 10 * Mils(l)
  {
    RoundedBasisPoints(t.scored.value);
  }

  /** Both cases occur: an LTV of 0.12345 is 1234 basis points on chain and 0.123 in
      the row, and a new LTV alone, here 0.5, is stored and not written. */
  lemma LtvDisagreementReached(parcel: ParcelConfig)
    ensures var first := Tick(true, true, Some(CreditScore(50, 0.12345, "C")), true, true);
            var second := Tick(true, true, Some(CreditScore(50, 0.5, "C")), true, true);
            var d1 := AfterTick(Desk(None, parcel), first);
            var d2 := AfterTick(d1, second);
            && d1.parcel.recommendedLtv == 1234 && d1.stored.value.recommendedLtv == 0.123
            && d2.parcel.recommendedLtv == 1234 && d2.stored.value.recommendedLtv == 0.5
  {
    assert (0.12345 * 10000.0).Floor == 1234;
    assert Mils(0.12345) == 123 && Mils(0.5) == 500;
  }

  /** The score's LTV is the one its grade stands for, as the fallback assigns it. */
  predicate LtvByGrade(s: ValidScore) {
    s.recommendedLtv == (if s.grade == "A" then 0.7 else if s.grade == "B" then 0.5 else if s.grade == "C" then 0.3 else 0.1)
  }

  ghost predicate FallbackScored(ticks: seq<Tick>) {
    forall i :: 0 <= i < |ticks| && ticks[i].scored.Some? ==> exists input :: ticks[i].scored.value == Fallback(input)
  }

  lemma FallbackByGrade(input: ScoringInput)
    ensures Valid(Fallback(input)) && LtvByGrade(Fallback(input)) && Rounded(Fallback(input)) == Fallback(input)
  {
  }

  /** With the fallback scorer the LTV never drifts: over every reliable run from
      the first scored tick on, grade and LTV on chain are the stored ones. */
  lemma {:induction false} FallbackLtvAgrees(parcel: ParcelConfig, ticks: seq<Tick>)
    requires Reliable(ticks) && FallbackScored(ticks)
    ensures var d := Play(Desk(None, parcel), ticks);
            d.stored.Some? ==> GradeAgrees(d) && LtvAgrees(d) && LtvByGrade(d.stored.value)
  {
    if ticks != [] {
      var n := |ticks| - 1;
      FallbackLtvAgrees(parcel, ticks[..n]);
      if ticks[n].scored.Some? {
        var input :| ticks[n].scored.value == Fallback(input);
        FallbackByGrade(input);
      }
    }
  }

  // ------------------------------------------------------------ a tight bound

  /** n + 1 reliable ticks whose scores rise by 4 each time, all graded A. */
  function Creep(n: nat): (ticks: seq<Tick>)
    requires n <= 25
    ensures |ticks| == n + 1
  {
    seq(n + 1, i requires 0 <= i <= n => Tick(true, true, Some(CreditScore(4 * i, 0.0, "A")), true, true))
  }

  /** The bound is reached: after n skips the chain can be exactly 4n behind. */
  lemma {:induction false} DriftIsTight(parcel: ParcelConfig, n: nat)
    requires n <= 25
    ensures var d0 := Desk(None, parcel);
            var d := Play(d0, Creep(n));
            && Reliable(Creep(n)) && Skipped(d0, Creep(n)) == n
            && d.stored == Some(CreditScore(4 * n, 0.0, "A")) && d.parcel.aiScore == 0
  {
    if n > 0 {
      DriftIsTight(parcel, n - 1);
      assert Creep(n)[..n] == Creep(n - 1);
    } else {
      assert Creep(0)[..0] == [];
    }
    assert Mils(0.0) == 0;
  }
}
