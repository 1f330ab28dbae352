/** When a record carries a retry time, over every run of the delivery protocol. */
module DeliverySchedule {
  import opened Common
  import opened Outbox
  import opened DeliveryProgress
  import opened DeliveryProtocol
  import opened DeliverySafety
  import opened DeliveryRuns

  /** A claim keeps the retry time: the IN_FLIGHT record has one iff it was FAILED, or had one already. */
  lemma ClaimKeepsSchedule(p: RetryPolicy, r: Record, t: real, now: real)
    requires RowFits(p, r, t) && IsEligible(p, r, now)
    ensures Claimed(r, now).nextAttemptAt.Some? <==> r.state == Failed || r.nextAttemptAt.Some?
    ensures MarkedPending(Claimed(r, now), now).nextAttemptAt == r.nextAttemptAt
  {
  }

  /** After any statement a record has a retry time iff it is FAILED, or had one before and is not terminal. */
  lemma ScheduleStep(p: RetryPolicy, r: Record, t: Tally, ev: RowEvent, clock: real)
    requires RowOk(p, r, t, clock) && EventOk(p, r, ev, clock)
    ensures var after := Touched(p, r, ev);
            after.nextAttemptAt.Some? <==> after.state == Failed || (!after.IsTerminal() && r.nextAttemptAt.Some?)
  {
  }

  /** Row k was FAILED in some earlier state, and from there to state n never DELIVERED or DEAD_LETTER. */
  ghost predicate FailedSince(states: seq<System>, n: nat, k: nat)
    requires n < |states|
  {
    exists m :: 0 <= m <= n && FailedAt(states, m, k) && forall j :: m <= j <= n ==> OpenAt(states, j, k)
  }

  ghost predicate FailedAt(states: seq<System>, m: nat, k: nat)
    requires m < |states|
  {
    k < |states[m].rows| && states[m].rows[k].state == Failed
  }

  ghost predicate OpenAt(states: seq<System>, j: nat, k: nat)
    requires j < |states|
  {
    k < |states[j].rows| && !states[j].rows[k].IsTerminal()
  }

  lemma FailedSinceStep(states: seq<System>, n: nat, k: nat)
    requires 0 < n < |states|
    ensures FailedSince(states, n, k) <==>
            OpenAt(states, n, k) && (FailedAt(states, n, k) || FailedSince(states, n - 1, k))
  {
    if FailedSince(states, n, k) {
      var m :| 0 <= m <= n && FailedAt(states, m, k) && forall j :: m <= j <= n ==> OpenAt(states, j, k);
      assert OpenAt(states, n, k);
    }
    if OpenAt(states, n, k) && FailedSince(states, n - 1, k) {
      var m :| 0 <= m <= n - 1 && FailedAt(states, m, k) && forall j :: m <= j <= n - 1 ==> OpenAt(states, j, k);
      assert forall j :: m <= j <= n ==> OpenAt(states, j, k);
    }
    if OpenAt(states, n, k) && FailedAt(states, n, k) {
      assert forall j :: n <= j <= n ==> OpenAt(states, j, k);
    }
  }

  lemma TakenScheduleStep(p: RetryPolicy, s: System, a: Action, t: System, k: nat)
    requires 1 <= p.maxAttempts && Inv(p, s) && Takes(p, s, a, t) && k < |t.rows|
    ensures t.rows[k].nextAttemptAt.Some? <==>
              t.rows[k].state == Failed || (!t.rows[k].IsTerminal() && k < |s.rows| && s.rows[k].nextAttemptAt.Some?)
  {
    NextRow(p, s, a, k);
    EventIsOk(p, s, a, k);
    var rows := Grown(s, a);
    if k < |s.rows| {
      ScheduleStep(p, rows[k], s.tallies[k], EventAt(p, s, a, rows, k), s.clock);
    } else {
      NewRecordIsOk(p, rows[k].event, rows[k].consumer, rows[k].createdAt, s.clock);
      ScheduleStep(p, rows[k], NOTHING, EventAt(p, s, a, rows, k), s.clock);
    }
  }

  /**
   * In every run: a record has a retry time exactly when it failed before and was not
   * terminal since. So a PENDING or IN_FLIGHT record has one exactly on its way to a retry.
   */
  lemma {:induction false} ScheduledIff(p: RetryPolicy, states: seq<System>, actions: seq<Action>, n: nat, k: nat)
    requires 1 <= p.maxAttempts && IsRun(p, states, actions) && IsInitial(states[0]) && n <= |actions|
    requires k < |states[n].rows|
    ensures states[n].rows[k].nextAttemptAt.Some? <==> FailedSince(states, n, k)
  {
    if n > 0 {
      RunKeepsInv(p, states, actions, n - 1);
      RunTakes(p, states, actions, n - 1);
      TakenScheduleStep(p, states[n - 1], actions[n - 1], states[n], k);
      FailedSinceStep(states, n, k);
      if k < |states[n - 1].rows| {
        ScheduledIff(p, states, actions, n - 1, k);
        FailedIsScheduled(p, states[n - 1], k);
      } else {
        NotFailedBeforeItExists(states, n - 1, k);
      }
    }
  }

  lemma FailedIsScheduled(p: RetryPolicy, s: System, k: nat)
    requires Inv(p, s) && k < |s.rows|
    ensures s.rows[k].state == Failed ==> s.rows[k].nextAttemptAt.Some?
  {
    assert RowOk(p, s.rows[k], s.tallies[k], s.clock);
  }

  lemma NotFailedBeforeItExists(states: seq<System>, n: nat, k: nat)
    requires n < |states| && k >= |states[n].rows|
    ensures !FailedSince(states, n, k)
  {
    assert !OpenAt(states, n, k);
  }
}

/**
 * How often a record changes, who may still change it, and what that means for passes that
 * run among other processes.
 */
module DeliveryChanges {
  import opened Counting
  import opened Outbox
  import opened DeliveryProtocol
  import opened DeliverySafety
  import opened DeliveryRuns

  // ----- who may still write a record

  /** The rows a process may still mark: those won or queued, and the one it is at. */
  function Open(proc: Proc): seq<nat> {
    match proc
    case Claiming(_, _, won) => won
    case Delivering(todo, _) => todo
    case Calling(row, rest, _) => [row] + rest
    case Returned(row, _, rest, _) => [row] + rest
    case _ => []
  }

  function OpenOn(proc: Proc, k: nat): nat {
    multiset(Open(proc))[k]
  }

  function OpenCounts(procs: seq<Proc>, k: nat): (counts: seq<nat>)
    ensures |counts| == |procs|
  {
    seq(|procs|, i requires 0 <= i < |procs| => OpenOn(procs[i], k))
  }

  function Openings(procs: seq<Proc>, k: nat): nat {
    Sum(OpenCounts(procs, k))
  }

  /** Every mark a process wrote or may still write comes from a claim or from a turn of the hot path. */
  ghost predicate MarksPaid(t: Tally, procs: seq<Proc>, k: nat) {
    t.marks + Openings(procs, k) <= t.claims + t.offers
  }

  ghost predicate MarksOk(s: System) {
    |s.tallies| == |s.rows| && forall k: nat :: k < |s.rows| ==> MarksPaid(s.tallies[k], s.procs, k)
  }

  lemma OpeningsUpdate(procs: seq<Proc>, i: nat, proc: Proc, k: nat)
    requires i < |procs|
    ensures Openings(procs[i := proc], k) == Openings(procs, k) - OpenOn(procs[i], k) + OpenOn(proc, k)
  {
    SumUpdate(OpenCounts(procs, k), i, OpenOn(proc, k));
    assert OpenCounts(procs[i := proc], k) == OpenCounts(procs, k)[i := OpenOn(proc, k)];
  }

  lemma OpenInTable(s: System, proc: Proc, k: nat)
    requires ProcOk(s, proc) && k >= |s.rows|
    ensures OpenOn(proc, k) == 0
  {
    forall i | 0 <= i < |Open(proc)| ensures Open(proc)[i] != k {
      if proc.Claiming? {
        assert (proc.won + proc.todo)[i] == proc.won[i];
      }
    }
  }

  lemma NobodyOpens(s: System, k: nat)
    requires k >= |s.rows| && ProcsOk(s)
    ensures Openings(s.procs, k) == 0
  {
    forall i | 0 <= i < |s.procs| ensures OpenOn(s.procs[i], k) == 0 {
      OpenInTable(s, s.procs[i], k);
    }
    SumOfNothing(OpenCounts(s.procs, k));
  }

  function MarkCredit(t: Tally): int {
    t.claims + t.offers - t.marks
  }

  /** A step never opens more on a record than its claims and offers add, less its marks. */
  ghost predicate OpensPaid(p: RetryPolicy, s: System, proc: Proc, step: Step, rows: seq<Record>, t: Tally, k: nat)
    requires StepEnabled(p, s, proc, step) && k < |rows|
  {
    OpenOn(ProcAfter(p, s, proc, step, rows), k) - OpenOn(proc, k)
    <= MarkCredit(TallyAfter(t, StepEvent(p, s, proc, step, rows, k))) - MarkCredit(t)
  }

  lemma ConsCount(row: nat, rest: seq<nat>, k: nat)
    ensures multiset([row] + rest)[k] == multiset(rest)[k] + if row == k then 1 else 0
  {
  }

  lemma HeadMarkOpens(p: RetryPolicy, s: System, proc: Proc, step: Step, rows: seq<Record>, t: Tally, k: nat)
    requires StepEnabled(p, s, proc, step) && k < |rows| && (step.Requeue? || step.LookupFail?)
    ensures OpensPaid(p, s, proc, step, rows, t, k)
  {
    HeadCount(proc.todo, k);
  }

  lemma SkipOpens(p: RetryPolicy, s: System, proc: Proc, rows: seq<Record>, t: Tally, k: nat)
    requires StepEnabled(p, s, proc, Skip) && k < |rows|
    ensures OpensPaid(p, s, proc, Skip, rows, t, k)
  {
    HeadCount(proc.todo, k);
  }

  lemma StartOpens(p: RetryPolicy, s: System, proc: Proc, rows: seq<Record>, t: Tally, k: nat)
    requires StepEnabled(p, s, proc, Start) && k < |rows|
    ensures OpensPaid(p, s, proc, Start, rows, t, k)
  {
    assert proc.todo == [proc.todo[0]] + proc.todo[1..];
  }

  lemma WriteOpens(p: RetryPolicy, s: System, proc: Proc, step: Step, rows: seq<Record>, t: Tally, k: nat)
    requires StepEnabled(p, s, proc, step) && k < |rows| && step.Write?
    ensures OpensPaid(p, s, proc, step, rows, t, k)
  {
    ConsCount(proc.row, proc.rest, k);
    assert Open(proc) == [proc.row] + proc.rest;
  }

  lemma ClaimOpens(p: RetryPolicy, s: System, proc: Proc, rows: seq<Record>, t: Tally, k: nat)
    requires StepEnabled(p, s, proc, ClaimNext) && k < |rows|
    ensures OpensPaid(p, s, proc, ClaimNext, rows, t, k)
  {
  }

  lemma CommitOpens(p: RetryPolicy, s: System, proc: Proc, step: Step, rows: seq<Record>, t: Tally, k: nat)
    requires StepEnabled(p, s, proc, step) && k < |rows| && step.Commit?
    ensures OpensPaid(p, s, proc, step, rows, t, k)
  {
  }

  lemma OtherStepOpens(p: RetryPolicy, s: System, proc: Proc, step: Step, rows: seq<Record>, t: Tally, k: nat)
    requires StepEnabled(p, s, proc, step) && k < |rows|
    requires step.Retire? || step.Select? || step.ClaimsDone? || step.Finish? || step.Crash?
    ensures OpensPaid(p, s, proc, step, rows, t, k)
  {
  }

  lemma StepOpens(p: RetryPolicy, s: System, proc: Proc, step: Step, rows: seq<Record>, t: Tally, k: nat)
    requires StepEnabled(p, s, proc, step) && k < |rows|
    ensures OpensPaid(p, s, proc, step, rows, t, k)
  {
    if step.Requeue? || step.LookupFail? {
      HeadMarkOpens(p, s, proc, step, rows, t, k);
    } else if step.Skip? {
      SkipOpens(p, s, proc, rows, t, k);
    } else if step.Start? {
      StartOpens(p, s, proc, rows, t, k);
    } else if step.Write? {
      WriteOpens(p, s, proc, step, rows, t, k);
    } else if step.ClaimNext? {
      ClaimOpens(p, s, proc, rows, t, k);
    } else if step.Commit? {
      CommitOpens(p, s, proc, step, rows, t, k);
    } else {
      OtherStepOpens(p, s, proc, step, rows, t, k);
    }
  }

  lemma RowKeepsMarksPaid(p: RetryPolicy, s: System, a: Action, n: System, t: Tally, k: nat)
    requires Takes(p, s, a, n) && k < |Grown(s, a)|
    requires t == (if k < |s.rows| then s.tallies[k] else NOTHING) && MarksPaid(t, s.procs, k)
    ensures k < |n.tallies| && MarksPaid(n.tallies[k], n.procs, k)
  {
    NextRow(p, s, a, k);
    if a.By? {
      StepOpens(p, s, s.procs[a.i], a.step, Grown(s, a), t, k);
      OpeningsUpdate(s.procs, a.i, ProcAfter(p, s, s.procs[a.i], a.step, Grown(s, a)), k);
    }
  }

  lemma KeepsMarksPaid(p: RetryPolicy, s: System, a: Action, n: System)
    requires ProcsOk(s) && MarksOk(s) && Takes(p, s, a, n)
    ensures MarksOk(n)
  {
    assert |n.rows| == |n.tallies| == |Grown(s, a)|;
    forall k: nat | k < |n.rows| ensures MarksPaid(n.tallies[k], n.procs, k) {
      if k < |s.rows| {
        RowKeepsMarksPaid(p, s, a, n, s.tallies[k], k);
      } else {
        NobodyOpens(s, k);
        RowKeepsMarksPaid(p, s, a, n, NOTHING, k);
      }
    }
  }

  // ----- how often a record changes

  /** Each retirement ends a lease that a claim began. */
  predicate LeasePaid(r: Record, t: Tally) {
    t.retires + (if r.state == InFlight then 1 else 0) <= t.claims
  }

  ghost predicate LeasesOk(s: System) {
    |s.tallies| == |s.rows| && forall k :: 0 <= k < |s.rows| ==> LeasePaid(s.rows[k], s.tallies[k])
  }

  /** Retirement is only ever recorded of an exhausted lease. */
  lemma LeaseStep(p: RetryPolicy, r: Record, t: Tally, ev: RowEvent)
    requires LeasePaid(r, t) && (ev.RetiredAt? ==> IsExhausted(p, r, ev.now))
    ensures LeasePaid(Touched(p, r, ev), TallyAfter(t, ev))
  {
  }

  lemma KeepsLeasesPaid(p: RetryPolicy, s: System, a: Action, n: System)
    requires LeasesOk(s) && Takes(p, s, a, n)
    ensures LeasesOk(n)
  {
    assert |n.rows| == |n.tallies| == |Grown(s, a)|;
    forall k | 0 <= k < |n.rows| ensures LeasePaid(n.rows[k], n.tallies[k]) {
      NextRow(p, s, a, k);
      LeaseStep(p, Grown(s, a)[k], if k < |s.rows| then s.tallies[k] else NOTHING, EventAt(p, s, a, Grown(s, a), k));
    }
  }

  /** Everything that happened to a record. */
  function Weight(t: Tally): nat {
    t.claims + t.retires + t.marks + t.resets + t.buries
  }

  lemma ChangesWeigh(p: RetryPolicy, r: Record, t: Tally, ev: RowEvent)
    ensures Weight(t) <= Weight(TallyAfter(t, ev))
    ensures Touched(p, r, ev) != r ==> Weight(t) < Weight(TallyAfter(t, ev))
  {
  }

  /** What can happen to a record at most, by its claims, requeues, offers and administrators. */
  function ChangeBound(p: RetryPolicy, t: Tally): nat {
    3 * (p.maxAttempts + t.requeues + t.resets * p.maxAttempts) + t.offers + t.resets + t.buries
  }

  ghost predicate ChangeInv(p: RetryPolicy, s: System) {
    Inv(p, s) && MarksOk(s) && LeasesOk(s)
  }

  lemma StepKeepsChangeInv(p: RetryPolicy, s: System, a: Action, n: System)
    requires 1 <= p.maxAttempts && ChangeInv(p, s) && Takes(p, s, a, n)
    ensures ChangeInv(p, n)
  {
    TakenStepKeepsInv(p, s, a, n);
    KeepsMarksPaid(p, s, a, n);
    KeepsLeasesPaid(p, s, a, n);
  }

  lemma RunStepKeepsChangeInv(p: RetryPolicy, states: seq<System>, actions: seq<Action>, n: nat)
    requires 1 <= p.maxAttempts && IsRun(p, states, actions) && n < |actions| && ChangeInv(p, states[n])
    ensures ChangeInv(p, states[n + 1])
  {
    RunTakes(p, states, actions, n);
    StepKeepsChangeInv(p, states[n], actions[n], states[n + 1]);
  }

  lemma InitialChangeInv(p: RetryPolicy, s: System)
    requires IsInitial(s)
    ensures ChangeInv(p, s)
  {
    InitialInv(p, s);
  }

  lemma {:induction false} RunKeepsChangeInv(p: RetryPolicy, states: seq<System>, actions: seq<Action>, n: nat)
    requires 1 <= p.maxAttempts && IsRun(p, states, actions) && IsInitial(states[0]) && n <= |actions|
    ensures ChangeInv(p, states[n])
  {
    if n == 0 {
      InitialChangeInv(p, states[0]);
    } else {
      RunKeepsChangeInv(p, states, actions, n - 1);
      RunStepKeepsChangeInv(p, states, actions, n - 1);
    }
  }

  lemma WeightIsBounded(p: RetryPolicy, s: System, k: nat)
    requires ChangeInv(p, s) && k < |s.rows|
    ensures Weight(s.tallies[k]) <= ChangeBound(p, s.tallies[k])
  {
    assert RowOk(p, s.rows[k], s.tallies[k], s.clock);
    assert MarksPaid(s.tallies[k], s.procs, k) && LeasePaid(s.rows[k], s.tallies[k]);
  }

  /** The number of steps before state n that changed row k. */
  function Changes(states: seq<System>, n: nat, k: nat): nat
    requires n < |states|
  {
    if n == 0 then 0
    else
      Changes(states, n - 1, k)
      + if k < |states[n - 1].rows| && k < |states[n].rows| && states[n].rows[k] != states[n - 1].rows[k] then 1 else 0
  }

  lemma RowChangeWeighs(p: RetryPolicy, s: System, a: Action, n: System, k: nat)
    requires Takes(p, s, a, n) && k < |s.rows|
    ensures k < |n.rows| == |n.tallies|
    ensures Weight(s.tallies[k]) <= Weight(n.tallies[k])
    ensures n.rows[k] != s.rows[k] ==> Weight(s.tallies[k]) < Weight(n.tallies[k])
  {
    NextRow(p, s, a, k);
    ChangesWeigh(p, s.rows[k], s.tallies[k], EventAt(p, s, a, Grown(s, a), k));
  }

  lemma RunRowChangeWeighs(p: RetryPolicy, states: seq<System>, actions: seq<Action>, n: nat, k: nat)
    requires IsRun(p, states, actions) && n < |actions| && k < |states[n].rows|
    ensures |states[n].tallies| == |states[n].rows| && k < |states[n + 1].rows| == |states[n + 1].tallies|
    ensures Weight(states[n].tallies[k]) <= Weight(states[n + 1].tallies[k])
    ensures states[n + 1].rows[k] != states[n].rows[k] ==>
            Weight(states[n].tallies[k]) < Weight(states[n + 1].tallies[k])
  {
    RunTakes(p, states, actions, n);
    RowChangeWeighs(p, states[n], actions[n], states[n + 1], k);
  }

  lemma {:induction false} ChangesAreWeighed(p: RetryPolicy, states: seq<System>, actions: seq<Action>, n: nat, k: nat)
    requires IsRun(p, states, actions) && n <= |actions| && |states[0].tallies| == |states[0].rows|
    ensures if k < |states[n].rows|
            then k < |states[n].tallies| && Changes(states, n, k) <= Weight(states[n].tallies[k])
            else Changes(states, n, k) == 0
  {
    if n > 0 {
      ChangesAreWeighed(p, states, actions, n - 1, k);
      TablesMatch(p, states, actions, n - 1);
      if k < |states[n - 1].rows| {
        RunRowChangeWeighs(p, states, actions, n - 1, k);
      }
    }
  }

  lemma TablesMatch(p: RetryPolicy, states: seq<System>, actions: seq<Action>, n: nat)
    requires IsRun(p, states, actions) && n < |actions|
    ensures |states[n].rows| <= |states[n + 1].rows| == |states[n + 1].tallies|
  {
    RunTakes(p, states, actions, n);
  }

  /**
   * In every run a record changes at most three times per claim it may win (claim, mark,
   * retirement), once per offer of the hot path, and once per administrative action.
   */
  lemma RecordChangesAreBounded(p: RetryPolicy, states: seq<System>, actions: seq<Action>, n: nat, k: nat)
    requires 1 <= p.maxAttempts && IsRun(p, states, actions) && IsInitial(states[0]) && n <= |actions|
    requires k < |states[n].rows|
    ensures k < |states[n].tallies| && Changes(states, n, k) <= ChangeBound(p, states[n].tallies[k])
  {
    RunKeepsChangeInv(p, states, actions, n);
    ChangesAreWeighed(p, states, actions, n, k);
    WeightIsBounded(p, states[n], k);
  }
}
