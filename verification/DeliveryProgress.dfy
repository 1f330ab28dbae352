/**
 * No record gets stuck: how far a record is from a terminal state, and why every pass of
 * backend/app/event_delivery/delivery_dispatcher.py brings the table closer to one.
 */
module DeliveryProgress {
  import opened Common
  import opened Outbox
  import opened Dispatcher

  function AttemptsLeft(p: RetryPolicy, r: Record): nat {
    if r.attempts < p.maxAttempts then p.maxAttempts - r.attempts else 0
  }

  /** A bound on the claims and retirements a record can still go through when its consumer is registered. */
  function Rank(p: RetryPolicy, r: Record): nat {
    match r.state
    case Delivered => 0
    case DeadLetter => 0
    case Failed => 2 * AttemptsLeft(p, r)
    case InFlight => 1 + 2 * AttemptsLeft(p, r)
    case Pending => 2 + 2 * AttemptsLeft(p, r)
  }

  function TotalRank(p: RetryPolicy, rows: seq<Record>): nat {
    if rows == [] then 0 else TotalRank(p, rows[..|rows| - 1]) + Rank(p, rows[|rows| - 1])
  }

  /** What every statement of the repository leaves true of a row, read at time t or later. */
  predicate RowFits(p: RetryPolicy, r: Record, t: real) {
    && r.updatedAt <= t
    && (r.state == Failed ==>
        r.attempts < p.maxAttempts && r.nextAttemptAt.Some? && r.nextAttemptAt.value <= t + BACKOFF_CAP)
  }

  ghost predicate Fits(p: RetryPolicy, rows: seq<Record>, t: real) {
    forall k :: 0 <= k < |rows| ==> RowFits(p, rows[k], t)
  }

  ghost predicate AllTerminal(rows: seq<Record>) {
    forall k :: 0 <= k < |rows| ==> rows[k].IsTerminal()
  }

  /** The time by which whatever was left behind at t is due again. */
  predicate IsLater(p: RetryPolicy, t: real, now: real) {
    now >= t + BACKOFF_CAP && now > t + p.staleLease
  }

  /** Each mark leaves a row that fits; the schedule counts from the mark's second clock reading. */
  lemma MarksFit(p: RetryPolicy, r: Record, m: Mark, t: real)
    requires m.now <= t && (m.Fail? ==> m.later <= t)
    ensures RowFits(p, Applied(p, r, m), t)
  {
  }

  /** A row that fits and is not terminal is claimable, or retired by the next pass, once it is due. */
  lemma NeverStuck(p: RetryPolicy, r: Record, t: real, now: real)
    requires RowFits(p, r, t) && IsLater(p, t, now)
    ensures r.IsTerminal() || IsEligible(p, r, now) || IsExhausted(p, r, now)
  {
  }

  lemma RetiringLowers(p: RetryPolicy, r: Record, now: real)
    ensures Rank(p, Retired(p, r, now)) <= Rank(p, r)
    ensures IsExhausted(p, r, now) ==> Rank(p, Retired(p, r, now)) < Rank(p, r)
    ensures IsEligible(p, r, now) ==> Retired(p, r, now) == r
  {
  }

  lemma ClaimingLowers(p: RetryPolicy, r: Record, now: real)
    requires IsEligible(p, r, now)
    ensures Rank(p, Claimed(r, now)) < Rank(p, r)
  {
  }

  lemma SettlingLowers(p: RetryPolicy, scene: Scene, r: Record, reply: Reply)
    requires r.state == InFlight && r.consumer in scene.consumers
    ensures Rank(p, Settled(p, scene, r, reply)) <= Rank(p, r)
  {
  }

  datatype Pass = Pass(scene: Scene, now: real, limit: nat, claimed: seq<nat>, replies: nat -> Reply, end: real)

  /**
   * A recovery pass with every consumer registered, late enough after `since`. Any answer of
   * the database and any outcome of each record is admitted, a dying process included.
   */
  ghost predicate IsPass(p: RetryPolicy, rows: seq<Record>, since: real, pass: Pass) {
    && IsLater(p, since, pass.now) && pass.now <= pass.end
    && 0 < pass.limit
    && (forall k :: 0 <= k < |rows| ==> rows[k].consumer in pass.scene.consumers)
    && (forall i :: pass.replies(i).now <= pass.end && pass.replies(i).later <= pass.end)
    && IsSelection(p, RetiredAll(p, rows, pass.now), pass.now, pass.limit, {}, pass.claimed)
  }

  function After(p: RetryPolicy, rows: seq<Record>, pass: Pass): (next: seq<Record>)
    ensures |next| == |rows|
  {
    AfterPass(p, pass.scene, rows, pass.now, pass.claimed, pass.replies, |pass.claimed|)
  }

  lemma RowProgress(p: RetryPolicy, scene: Scene, r: Record, k: nat, now: real, claimed: seq<nat>,
                    replies: nat -> Reply)
    requires r.consumer in scene.consumers
    requires k in claimed ==> IsEligible(p, Retired(p, r, now), now)
    ensures var after := RowAfter(p, scene, r, k, now, claimed, replies, |claimed|);
            && Rank(p, after) <= Rank(p, r)
            && (k in claimed || IsExhausted(p, r, now) ==> Rank(p, after) < Rank(p, r))
  {
    var retired, i := Retired(p, r, now), FirstIndex(claimed, k);
    RetiringLowers(p, r, now);
    if i < |claimed| {
      assert claimed[i] in claimed;
      ClaimingLowers(p, retired, now);
      SettlingLowers(p, scene, Claimed(retired, now), replies(i));
    }
  }

  lemma RowStaysFit(p: RetryPolicy, scene: Scene, r: Record, k: nat, now: real, claimed: seq<nat>,
                    replies: nat -> Reply,
                    since: real, end: real)
    requires RowFits(p, r, since) && since <= end && now <= end
    requires forall i :: replies(i).now <= end && replies(i).later <= end
    ensures RowFits(p, RowAfter(p, scene, r, k, now, claimed, replies, |claimed|), end)
  {
    var retired, i := Retired(p, r, now), FirstIndex(claimed, k);
    if i < |claimed| {
      var claim := Claimed(retired, now);
      match Verdict(scene, claim, replies(i))
      case Some(mark) => MarksFit(p, claim, mark, end);
      case None =>
    }
  }

  /** While a record is not terminal, a pass that starts late enough claims or retires one. */
  lemma PassMoves(p: RetryPolicy, rows: seq<Record>, since: real, pass: Pass, k: nat) returns (moved: nat)
    requires Fits(p, rows, since) && IsPass(p, rows, since, pass)
    requires k < |rows| && !rows[k].IsTerminal()
    ensures moved < |rows| && (moved in pass.claimed || IsExhausted(p, rows[moved], pass.now))
  {
    NeverStuck(p, rows[k], since, pass.now);
    if IsExhausted(p, rows[k], pass.now) || k in pass.claimed {
      moved := k;
    } else {
      var retired := RetiredAll(p, rows, pass.now);
      assert retired[k] == rows[k] && Wanted({}, retired[k]);
      moved := pass.claimed[0];
    }
  }

  lemma {:induction false} TotalRankLowers(p: RetryPolicy, before: seq<Record>, after: seq<Record>)
    requires |before| == |after|
    requires forall k :: 0 <= k < |before| ==> Rank(p, after[k]) <= Rank(p, before[k])
    ensures TotalRank(p, after) <= TotalRank(p, before)
    ensures (exists k :: 0 <= k < |before| && Rank(p, after[k]) < Rank(p, before[k])) ==>
            TotalRank(p, after) < TotalRank(p, before)
  {
    if before != [] {
      TotalRankLowers(p, before[..|before| - 1], after[..|after| - 1]);
    }
  }

  lemma PassNeverRaises(p: RetryPolicy, rows: seq<Record>, since: real, pass: Pass)
    requires IsPass(p, rows, since, pass)
    ensures forall k :: 0 <= k < |rows| ==> Rank(p, After(p, rows, pass)[k]) <= Rank(p, rows[k])
    ensures forall k :: 0 <= k < |rows| && (k in pass.claimed || IsExhausted(p, rows[k], pass.now)) ==>
              Rank(p, After(p, rows, pass)[k]) < Rank(p, rows[k])
  {
    forall k | 0 <= k < |rows|
      ensures Rank(p, After(p, rows, pass)[k]) <= Rank(p, rows[k])
      ensures (k in pass.claimed || IsExhausted(p, rows[k], pass.now)) ==>
              Rank(p, After(p, rows, pass)[k]) < Rank(p, rows[k])
    {
      RowProgress(p, pass.scene, rows[k], k, pass.now, pass.claimed, pass.replies);
    }
  }

  lemma PassKeepsFit(p: RetryPolicy, rows: seq<Record>, since: real, pass: Pass)
    requires Fits(p, rows, since) && IsPass(p, rows, since, pass) && since <= pass.end
    ensures Fits(p, After(p, rows, pass), pass.end)
  {
    forall k | 0 <= k < |rows| ensures RowFits(p, After(p, rows, pass)[k], pass.end) {
      RowStaysFit(p, pass.scene, rows[k], k, pass.now, pass.claimed, pass.replies, since, pass.end);
    }
  }

  /** One pass: the rows still fit, and unless all are terminal the measure strictly falls. */
  lemma PassMakesProgress(p: RetryPolicy, rows: seq<Record>, since: real, pass: Pass)
    requires Fits(p, rows, since) && IsPass(p, rows, since, pass)
    ensures Fits(p, After(p, rows, pass), pass.end)
    ensures TotalRank(p, After(p, rows, pass)) <= TotalRank(p, rows)
    ensures AllTerminal(rows) || TotalRank(p, After(p, rows, pass)) < TotalRank(p, rows)
  {
    PassKeepsFit(p, rows, since, pass);
    PassNeverRaises(p, rows, since, pass);
    TotalRankLowers(p, rows, After(p, rows, pass));
    if k :| 0 <= k < |rows| && !rows[k].IsTerminal() {
      var moved := PassMoves(p, rows, since, pass, k);
    }
  }

  lemma {:induction false} NoRankIsTerminal(p: RetryPolicy, rows: seq<Record>, t: real)
    requires Fits(p, rows, t)
    ensures TotalRank(p, rows) == 0 <==> AllTerminal(rows)
  {
    if rows != [] {
      var n := |rows| - 1;
      NoRankIsTerminal(p, rows[..n], t);
      assert RowFits(p, rows[n], t);
      assert AllTerminal(rows) <==> AllTerminal(rows[..n]) && rows[n].IsTerminal();
    }
  }

  lemma {:induction false} RankIsBounded(p: RetryPolicy, rows: seq<Record>, each: nat)
    requires each == 2 * p.maxAttempts + 2
    ensures TotalRank(p, rows) <= each * |rows|
  {
    if rows != [] {
      var n := |rows| - 1;
      RankIsBounded(p, rows[..n], each);
      calc {
        TotalRank(p, rows);
        TotalRank(p, rows[..n]) + Rank(p, rows[n]);
      <=
        each * n + each;
        each * (n + 1);
      }
    }
  }

  function AfterAll(p: RetryPolicy, rows: seq<Record>, passes: seq<Pass>): (next: seq<Record>)
    ensures |next| == |rows|
  {
    if passes == [] then rows else After(p, AfterAll(p, rows, passes[..|passes| - 1]), passes[|passes| - 1])
  }

  function EndOf(since: real, passes: seq<Pass>): real {
    if passes == [] then since else passes[|passes| - 1].end
  }

  /** Passes one after the other, each late enough after the one before. */
  ghost predicate IsSchedule(p: RetryPolicy, rows: seq<Record>, since: real, passes: seq<Pass>) {
    passes == [] ||
    var earlier := passes[..|passes| - 1];
    IsSchedule(p, rows, since, earlier)
        && IsPass(p, AfterAll(p, rows, earlier), EndOf(since, earlier), passes[|passes| - 1])
  }

  lemma {:induction false} ScheduleLowersRank(p: RetryPolicy, rows: seq<Record>, since: real, passes: seq<Pass>)
    requires Fits(p, rows, since) && IsSchedule(p, rows, since, passes)
    ensures Fits(p, AfterAll(p, rows, passes), EndOf(since, passes))
    ensures TotalRank(p, AfterAll(p, rows, passes)) == 0
            || TotalRank(p, AfterAll(p, rows, passes)) + |passes| <= TotalRank(p, rows)
  {
    if passes != [] {
      var earlier, last := passes[..|passes| - 1], passes[|passes| - 1];
      var mid := AfterAll(p, rows, earlier);
      ScheduleLowersRank(p, rows, since, earlier);
      PassMakesProgress(p, mid, EndOf(since, earlier), last);
      NoRankIsTerminal(p, mid, EndOf(since, earlier));
    }
  }

  /**
   * With every consumer registered and time moving on between passes, every record is
   * DELIVERED or DEAD_LETTER after at most 2 * max_attempts + 2 passes a record, whatever
   * the consumers, the event store and the dying processes do.
   */
  lemma EveryRecordSettles(p: RetryPolicy, rows: seq<Record>, since: real, passes: seq<Pass>)
    requires Fits(p, rows, since) && IsSchedule(p, rows, since, passes)
    requires |passes| >= TotalRank(p, rows)
    ensures AllTerminal(AfterAll(p, rows, passes))
    ensures TotalRank(p, rows) <= (2 * p.maxAttempts + 2) * |rows|
  {
    RankIsBounded(p, rows, 2 * p.maxAttempts + 2);
    ScheduleLowersRank(p, rows, since, passes);
    NoRankIsTerminal(p, AfterAll(p, rows, passes), EndOf(since, passes));
  }

  // ----- where the documented bound on attempts does not hold

  /** A claim exceeds max_attempts exactly when it takes a PENDING record that has used them up. */
  lemma ClaimOverruns(p: RetryPolicy, r: Record, now: real)
    requires IsEligible(p, r, now)
    ensures Claimed(r, now).attempts > p.maxAttempts <==> r.state == Pending && r.attempts >= p.maxAttempts
  {
  }

  /** One record through passes that find its consumer unregistered. */
  function TurnedAway(p: RetryPolicy, r: Record, times: seq<real>): Record {
    if times == [] then r
    else
      var n := |times| - 1;
      AfterPass(p, Scene({}, {}), [TurnedAway(p, r, times[..n])], times[n], [0],
                _ => Reply(Returns, times[n], times[n]), 1)[0]
  }

  /** Each such pass uses up an attempt, without a limit, and the record stays claimable. */
  lemma {:induction false} TurnsUseUpAttempts(p: RetryPolicy, r: Record, times: seq<real>)
    requires r.state == Pending
    ensures var after := TurnedAway(p, r, times);
            && after.state == Pending && after.attempts == r.attempts + |times|
            && forall now :: IsEligible(p, after, now)
  {
    if times != [] {
      var n := |times| - 1;
      TurnsUseUpAttempts(p, r, times[..n]);
      assert FirstIndex([0], 0) == 0;
    }
  }

  /** A record whose consumer registers late is claimed with more than max_attempts attempts. */
  lemma AttemptsCanExceedTheLimit(p: RetryPolicy, e: EventId, c: ConsumerId, times: seq<real>, now: real)
    requires |times| == p.maxAttempts
    ensures var r := TurnedAway(p, NewRecord(e, c, 0.0), times);
            IsEligible(p, r, now) && Claimed(r, now).attempts == p.maxAttempts + 1
  {
    TurnsUseUpAttempts(p, NewRecord(e, c, 0.0), times);
  }
}
