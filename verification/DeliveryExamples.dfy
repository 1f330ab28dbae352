/** Reachable states that show where the delivery protocol departs from its own documentation. */
module DeliveryExamples {
  import opened Common
  import opened Outbox
  import opened Dispatcher
  import opened DeliveryProtocol
  import opened DeliverySafety
  import opened DeliveryRefinement

  const POLICY := RetryPolicy(60.0, 5, 2.0)

  /** An empty outbox, two idle processes, a hundred seconds on the clock. */
  const EMPTY := System([], [], {}, {}, [Idle, Idle], [], 100.0)

  const BOTH: set<nat> := {0, 1}

  lemma CommitOfOne(e: EventId, c: ConsumerId)
    ensures Missing([], e, [c]) == [c]
    ensures Grown(EMPTY, By(0, Commit(e, [c], 0.0))) == [NewRecord(e, c, 0.0)]
    ensures HotRows([NewRecord(e, c, 0.0)], e, [c]) == [0]
  {
    OneIsMissing(e, c);
    TheHotRow(e, c);
  }

  lemma OneIsMissing(e: EventId, c: ConsumerId)
    ensures Missing([], e, [c]) == [c]
  {
    assert [c][..0] == [];
  }

  lemma TheHotRow(e: EventId, c: ConsumerId)
    ensures HotRows([NewRecord(e, c, 0.0)], e, [c]) == [0]
  {
    var rows := [NewRecord(e, c, 0.0)];
    assert rows[0].IsFor(e, c);
  }

  /** Process 0 commits an event for one consumer and stands before its hot path. */
  lemma OneCommitted(p: RetryPolicy, e: EventId, c: ConsumerId) returns (t: System)
    ensures At(p, EMPTY, t, BOTH, 0, Delivering([0], true)) && At(p, EMPTY, t, BOTH, 1, Idle)
    ensures t.rows == [NewRecord(e, c, 0.0)] && t.events == {e}
  {
    var step := Commit(e, [c], 0.0);
    ReachesItself(p, EMPTY, BOTH);
    CommitOfOne(e, c);
    ReachesNext(p, EMPTY, EMPTY, 0, step, BOTH);
    t := Next(p, EMPTY, By(0, step));
    NextRow(p, EMPTY, By(0, step), 0);
  }

  lemma OneRowSelection(p: RetryPolicy, r: Record, now: real)
    requires IsEligible(p, r, now)
    ensures RetiredAll(p, [r], now) == [r]
    ensures IsSelection(p, RetiredAll(p, [r], now), now, 100, {}, [0])
    ensures ClaimedAll([r], [0], now) == [Claimed(r, now)]
  {
    assert Retired(p, r, now) == r;
    assert Wanted({}, r);
  }

  /** A pass of process 1 claims the one record of the table. */
  lemma ClaimsTheOne(p: RetryPolicy, t: System, r: Record, now: real) returns (u: System)
    requires 1 < |t.procs| && At(p, EMPTY, t, BOTH, 1, t.procs[1]) && IsFree(t.procs[1]) && now <= t.clock
    requires t.rows == [r] && IsEligible(p, r, now)
    ensures At(p, EMPTY, u, BOTH, 1, Delivering([0], false)) && u.rows == [Claimed(r, now)]
    ensures SameElsewhere(t, u, 1)
  {
    OneRowSelection(p, r, now);
    u := ClaimAll(p, t, EMPTY, BOTH, 1, now, 100, {}, [0]);
  }

  lemma MarksTheOne(p: RetryPolicy, r: Record, m: Mark)
    ensures Marked(p, [r], r.event, r.consumer, m) == [Applied(p, r, m)]
  {
    assert [r][0].IsFor(r.event, r.consumer);
    assert RecordIndex([r], r.event, r.consumer) == 0;
  }

  /** Process 1 calls the consumer of the one record and writes the outcome. */
  lemma DeliversTheOne(p: RetryPolicy, t: System, r: Record, ok: bool, now: real) returns (u: System)
    requires At(p, EMPTY, t, BOTH, 1, Delivering([0], false)) && t.rows == [r] && r.event in t.events
             && now <= t.clock
    ensures At(p, EMPTY, u, BOTH, 1, Delivering([], false)) && SameElsewhere(t, u, 1)
    ensures u.rows == [Applied(p, r, if ok then Deliver(now) else Fail("consumer raised", now, now))]
  {
    var called := CallStep(p, EMPTY, t, BOTH, 1, [0], false, ok);
    u := WriteOutcome(p, EMPTY, called, BOTH, 1, 0, [], false, ok, now, now);
    MarksTheOne(p, r, if ok then Deliver(now) else Fail("consumer raised", now, now));
    SameElsewhereTwice(t, called, u, 1);
  }

  /**
   * Commit, claim, raise, claim again: IN_FLIGHT with a retry time; and PENDING with one once
   * the consumer is found unregistered.
   */
  lemma RetryTimeOutlivesFailed(e: EventId, c: ConsumerId) returns (flying: System, waiting: System)
    ensures IsInitial(EMPTY) && Reaches(POLICY, EMPTY, flying, BOTH) && Reaches(POLICY, EMPTY, waiting, BOTH)
    ensures |flying.rows| == 1 && flying.rows[0].state == InFlight && flying.rows[0].nextAttemptAt == Some(4.0)
    ensures |waiting.rows| == 1 && waiting.rows[0].state == Pending && waiting.rows[0].nextAttemptAt == Some(4.0)
  {
    var fresh0 := NewRecord(e, c, 0.0);
    var committed := OneCommitted(POLICY, e, c);
    var first := ClaimsTheOne(POLICY, committed, fresh0, 1.0);
    var failed := DeliversTheOne(POLICY, first, Claimed(fresh0, 1.0), false, 2.0);
    assert Pow2(0) == 1;
    var r := Applied(POLICY, Claimed(fresh0, 1.0), Fail("consumer raised", 2.0, 2.0));
    flying := ClaimsTheOne(POLICY, failed, r, 5.0);
    waiting := PutBack(POLICY, EMPTY, flying, BOTH, 1, [0], Scene({}, flying.events), Reply(Returns, 6.0, 6.0));
    MarksTheOne(POLICY, Claimed(r, 5.0), Return(6.0));
  }

  /**
   * A hot call that raised, overtaken by a recovery pass that delivered: the late mark turns
   * the DELIVERED record into a FAILED one, and it will be delivered again.
   */
  lemma LateMarkReopens(e: EventId, c: ConsumerId) returns (delivered: System, reopened: System)
    ensures IsInitial(EMPTY) && Reaches(POLICY, EMPTY, delivered, BOTH) && Reaches(POLICY, EMPTY, reopened, BOTH)
    ensures |delivered.rows| == 1 && delivered.rows[0].state == Delivered
    ensures |reopened.rows| == 1 && reopened.rows[0].state == Failed && IsEligible(POLICY, reopened.rows[0], 50.0)
  {
    var fresh0 := NewRecord(e, c, 0.0);
    var committed := OneCommitted(POLICY, e, c);
    var claimed := ClaimsTheOne(POLICY, committed, fresh0, 1.0);
    var called := CallStep(POLICY, EMPTY, claimed, BOTH, 0, [0], true, false);
    delivered := DeliversTheOne(POLICY, called, Claimed(fresh0, 1.0), true, 2.0);
    var r := Applied(POLICY, Claimed(fresh0, 1.0), Deliver(2.0));
    reopened := WriteOutcome(POLICY, EMPTY, delivered, BOTH, 0, 0, [], true, false, 3.0, 3.0);
    MarksTheOne(POLICY, r, Fail("consumer raised", 3.0, 3.0));
    assert Pow2(0) == 1;
  }

  /** One attempt only. */
  const ONCE := RetryPolicy(60.0, 1, 2.0)

  /**
   * A hot call still to be marked, a claimer that died, and a lease that ran out: the record is a
   * DEAD_LETTER, and the late mark makes it DELIVERED without any requeue.
   */
  lemma LateMarkLeavesDeadLetter(e: EventId, c: ConsumerId) returns (dead: System, delivered: System)
    ensures IsInitial(EMPTY) && Reaches(ONCE, EMPTY, dead, BOTH) && Reaches(ONCE, EMPTY, delivered, BOTH)
    ensures |dead.rows| == 1 && dead.rows[0].state == DeadLetter
    ensures |delivered.rows| == 1 && delivered.rows[0].state == Delivered
  {
    var fresh0 := NewRecord(e, c, 0.0);
    var committed := OneCommitted(ONCE, e, c);
    var called := CallStep(ONCE, EMPTY, committed, BOTH, 0, [0], true, true);
    var claimed := ClaimsTheOne(ONCE, called, fresh0, 1.0);
    PlainStep(ONCE, EMPTY, claimed, BOTH, 1, Crash);
    var crashed := Next(ONCE, claimed, By(1, Crash));
    assert crashed.rows == [Claimed(fresh0, 1.0)];
    PlainStep(ONCE, EMPTY, crashed, BOTH, 1, Retire(70.0));
    dead := Next(ONCE, crashed, By(1, Retire(70.0)));
    var r := Retired(ONCE, Claimed(fresh0, 1.0), 70.0);
    assert dead.rows == [r];
    delivered := WriteOutcome(ONCE, EMPTY, dead, BOTH, 0, 0, [], true, true, 71.0, 71.0);
    MarksTheOne(ONCE, r, Deliver(71.0));
  }
}
