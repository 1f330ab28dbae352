/**
 * Delivery under concurrency: pipeline runs, recovery passes by any number of processes,
 * administrators and crashes, interleaved statement by statement over one outbox table
 * (backend/app/event_pipeline/event_pipeline.py, backend/app/event_delivery/).
 */
module DeliveryProtocol {
  import opened Common
  import opened Outbox
  import opened DeliveryProgress

  type Pair = (EventId, ConsumerId)

  /**
   * History of a record: claims won, leases retired, marks written by the processes and those
   * among them that requeue, hot-path turns, and what administrators did to it.
   */
  datatype Tally = Tally(claims: nat, retires: nat, marks: nat, requeues: nat, offers: nat, resets: nat, buries: nat)

  const NOTHING := Tally(0, 0, 0, 0, 0, 0, 0)

  /** Consumer calls: started (on the hot path or in a recovery pass) and finished (returned or raised). */
  datatype Entry =
    | Started(event: EventId, consumer: ConsumerId, hot: bool)
    | Finished(event: EventId, consumer: ConsumerId, ok: bool)

  /** Where a process is. Record lists are row positions; `hot` tells the pipeline's own loop from a recovery pass. */
  datatype Proc =
    | Idle
    | Selecting(now: real)
    | Claiming(now: real, todo: seq<nat>, won: seq<nat>)
    | Delivering(todo: seq<nat>, hot: bool)
    | Calling(row: nat, rest: seq<nat>, hot: bool)
    | Returned(row: nat, ok: bool, rest: seq<nat>, hot: bool)

  datatype System = System(
    rows: seq<Record>, tallies: seq<Tally>, events: set<EventId>, committed: set<Pair>,
    procs: seq<Proc>, log: seq<Entry>, clock: real)

  datatype Step =
    | Commit(event: EventId, consumers: seq<ConsumerId>, now: real)
    | Retire(now: real)
    | Select(limit: nat, filter: set<ConsumerId>, candidates: seq<nat>)
    | ClaimNext
    | ClaimsDone
    | Requeue(now: real)
    | Skip
    | LookupFail(error: string, now: real, later: real)
    | Start
    | Finish(ok: bool)
    | Write(now: real, later: real)
    | Crash

  datatype Action =
    | Tick(to: real)
    | Enqueue(event: EventId, consumer: ConsumerId, now: real)
    | BuryRow(row: nat, error: string, now: real)
    | AdminRequeue(row: nat, now: real)
    | By(i: nat, step: Step)

  // ----- the atomic commit of an event with its delivery records

  /** The consumers the commit finds without a record; a repeated one would break the constraint. */
  function Missing(rows: seq<Record>, e: EventId, consumers: seq<ConsumerId>): seq<ConsumerId> {
    if consumers == [] then []
    else
      var n := |consumers| - 1;
      Missing(rows, e, consumers[..n]) + if RecordIndex(rows, e, consumers[n]) < |rows| then [] else [consumers[n]]
  }

  function NewRecords(e: EventId, consumers: seq<ConsumerId>, now: real): (records: seq<Record>)
    ensures |records| == |consumers|
  {
    seq(|consumers|, i requires 0 <= i < |consumers| => NewRecord(e, consumers[i], now))
  }

  /** The records of the hot path, in consumer order. */
  function HotRows(rows: seq<Record>, e: EventId, consumers: seq<ConsumerId>): (positions: seq<nat>)
    ensures |positions| == |consumers|
  {
    seq(|consumers|, i requires 0 <= i < |consumers| => RecordIndex(rows, e, consumers[i]))
  }

  /** The records an action adds to the table. */
  function Fresh(s: System, a: Action): seq<Record> {
    match a
    case Enqueue(e, c, now) => if RecordIndex(s.rows, e, c) < |s.rows| then [] else [NewRecord(e, c, now)]
    case By(_, Commit(e, consumers, now)) => NewRecords(e, Missing(s.rows, e, consumers), now)
    case _ => []
  }

  // ----- what an action does to one record

  datatype RowEvent =
    | Keep
    | Offered(times: nat)
    | RetiredAt(now: real)
    | ClaimedAt(now: real)
    | Marking(mark: Mark)
    | ResetAt(now: real)

  function Touched(p: RetryPolicy, r: Record, ev: RowEvent): Record {
    match ev
    case Keep => r
    case Offered(_) => r
    case RetiredAt(now) => Retired(p, r, now)
    case ClaimedAt(now) => Claimed(r, now)
    case Marking(mark) => Applied(p, r, mark)
    case ResetAt(now) => Requeued(r, now)
  }

  function TallyAfter(t: Tally, ev: RowEvent): Tally {
    match ev
    case Offered(times) => t.(offers := t.offers + times)
    case ClaimedAt(_) => t.(claims := t.claims + 1)
    case RetiredAt(_) => t.(retires := t.retires + 1)
    case Marking(Return(_)) => t.(marks := t.marks + 1, requeues := t.requeues + 1)
    case Marking(Bury(_, _)) => t.(buries := t.buries + 1)
    case Marking(_) => t.(marks := t.marks + 1)
    case ResetAt(_) => t.(resets := t.resets + 1)
    case _ => t
  }

  predicate IsFree(proc: Proc) {
    proc.Idle? || (proc.Delivering? && proc.todo == [])
  }

  ghost predicate StepEnabled(p: RetryPolicy, s: System, proc: Proc, step: Step) {
    match step
    case Commit(e, consumers, now) => IsFree(proc) && now <= s.clock && Distinct(Missing(s.rows, e, consumers))
    case Retire(now) => IsFree(proc) && now <= s.clock
    case Select(limit, filter, candidates) =>
      proc.Selecting? && IsSelection(p, s.rows, proc.now, limit, filter, candidates)
    case ClaimNext => proc.Claiming? && proc.todo != []
    case ClaimsDone => proc.Claiming? && proc.todo == []
    case Requeue(now) => proc.Delivering? && !proc.hot && proc.todo != [] && now <= s.clock
    case Skip => proc.Delivering? && proc.hot && proc.todo != []
    case LookupFail(_, now, later) =>
      proc.Delivering? && !proc.hot && proc.todo != [] && now <= s.clock && later <= s.clock
    case Start =>
      proc.Delivering? && proc.todo != [] && proc.todo[0] < |s.rows|
          && (proc.hot || s.rows[proc.todo[0]].event in s.events)
    case Finish(_) => proc.Calling?
    case Write(now, later) => proc.Returned? && now <= s.clock && later <= s.clock
    case Crash => true
  }

  /** Clock readings are never ahead of the clock; a claim may still act on an old one. */
  ghost predicate Enabled(p: RetryPolicy, s: System, a: Action) {
    match a
    case Tick(to) => s.clock <= to
    case Enqueue(_, _, now) => now <= s.clock
    case BuryRow(row, _, now) => row < |s.rows| && now <= s.clock
    case AdminRequeue(row, now) => row < |s.rows| && s.rows[row].state == DeadLetter && now <= s.clock
    case By(i, step) => i < |s.procs| && StepEnabled(p, s, s.procs[i], step)
  }

  ghost function StepEvent(p: RetryPolicy, s: System, proc: Proc, step: Step, rows: seq<Record>, k: nat): RowEvent
    requires StepEnabled(p, s, proc, step) && k < |rows|
  {
    match step
    case Commit(e, consumers, _) => Offered(multiset(HotRows(rows, e, consumers))[k])
    case Retire(now) => if IsExhausted(p, rows[k], now) then RetiredAt(now) else Keep
    case ClaimNext => if proc.todo[0] == k && IsEligible(p, rows[k], proc.now) then ClaimedAt(proc.now) else Keep
    case Requeue(now) => if proc.todo[0] == k then Marking(Return(now)) else Keep
    case LookupFail(error, now, later) => if proc.todo[0] == k then Marking(Fail(error, now, later)) else Keep
    case Write(now, later) =>
      if proc.row != k then Keep
      else if proc.ok then Marking(Deliver(now))
      else Marking(Fail("consumer raised", now, later))
    case _ => Keep
  }

  /** What the action does to row k of the table that already holds the fresh rows. */
  ghost function EventAt(p: RetryPolicy, s: System, a: Action, rows: seq<Record>, k: nat): RowEvent
    requires Enabled(p, s, a) && k < |rows|
  {
    match a
    case BuryRow(row, error, now) => if row == k then Marking(Bury(error, now)) else Keep
    case AdminRequeue(row, now) => if row == k then ResetAt(now) else Keep
    case By(i, step) => StepEvent(p, s, s.procs[i], step, rows, k)
    case _ => Keep
  }

  ghost function ProcAfter(p: RetryPolicy, s: System, proc: Proc, step: Step, rows: seq<Record>): Proc
    requires StepEnabled(p, s, proc, step)
  {
    match step
    case Commit(e, consumers, _) => Delivering(HotRows(rows, e, consumers), true)
    case Retire(now) => Selecting(now)
    case Select(_, _, candidates) => Claiming(proc.now, candidates, [])
    case ClaimNext =>
      var k := proc.todo[0];
      var wins := k < |rows| && IsEligible(p, rows[k], proc.now);
      Claiming(proc.now, proc.todo[1..], if wins then proc.won + [k] else proc.won)
    case ClaimsDone => Delivering(proc.won, false)
    case Requeue(_) => Delivering(proc.todo[1..], false)
    case Skip => Delivering(proc.todo[1..], true)
    case LookupFail(_, _, _) => Delivering(proc.todo[1..], false)
    case Start => Calling(proc.todo[0], proc.todo[1..], proc.hot)
    case Finish(ok) => Returned(proc.row, ok, proc.rest, proc.hot)
    case Write(_, _) => Delivering(proc.rest, proc.hot)
    case Crash => Idle
  }

  /** What a step of a process adds to the record of calls. */
  function LogOf(rows: seq<Record>, proc: Proc, step: Step): seq<Entry> {
    match step
    case Start =>
      if proc.Delivering? && proc.todo != [] && proc.todo[0] < |rows|
      then [Started(rows[proc.todo[0]].event, rows[proc.todo[0]].consumer, proc.hot)] else []
    case Finish(ok) =>
      if proc.Calling? && proc.row < |rows| then [Finished(rows[proc.row].event, rows[proc.row].consumer, ok)] else []
    case _ => []
  }

  function RowsAfter(p: RetryPolicy, rows: seq<Record>, events: seq<RowEvent>): (next: seq<Record>)
    requires |rows| == |events|
    ensures |next| == |rows|
  {
    seq(|rows|, k requires 0 <= k < |rows| => Touched(p, rows[k], events[k]))
  }

  function TalliesAfter(tallies: seq<Tally>, events: seq<RowEvent>): (next: seq<Tally>)
    requires |tallies| == |events|
    ensures |next| == |tallies|
  {
    seq(|tallies|, k requires 0 <= k < |tallies| => TallyAfter(tallies[k], events[k]))
  }

  function Zeros(n: nat): (zeros: seq<Tally>)
    ensures |zeros| == n
  {
    seq(n, k => NOTHING)
  }

  /** The rows of the action's table: the old ones, then the fresh ones. */
  function Grown(s: System, a: Action): seq<Record> {
    s.rows + Fresh(s, a)
  }

  ghost function EventsOf(p: RetryPolicy, s: System, a: Action): (events: seq<RowEvent>)
    requires Enabled(p, s, a)
    ensures |events| == |Grown(s, a)|
  {
    seq(|Grown(s, a)|, k requires 0 <= k < |Grown(s, a)| => EventAt(p, s, a, Grown(s, a), k))
  }

  ghost function Next(p: RetryPolicy, s: System, a: Action): System
    requires |s.tallies| == |s.rows| && Enabled(p, s, a)
  {
    var rows := Grown(s, a);
    var events := EventsOf(p, s, a);
    System(
      RowsAfter(p, rows, events),
      TalliesAfter(s.tallies + Zeros(|Fresh(s, a)|), events),
      if a.By? && a.step.Commit? then s.events + {a.step.event} else s.events,
      if a.By? && a.step.Commit? then s.committed + (set c | c in a.step.consumers :: (a.step.event, c))
      else s.committed,
      if a.By? then s.procs[a.i := ProcAfter(p, s, s.procs[a.i], a.step, rows)] else s.procs,
      if a.By? then s.log + LogOf(rows, s.procs[a.i], a.step) else s.log,
      if a.Tick? then a.to else s.clock)
  }

  ghost predicate Takes(p: RetryPolicy, s: System, a: Action, t: System) {
    |s.tallies| == |s.rows| && Enabled(p, s, a) && t == Next(p, s, a)
  }

  ghost predicate TakesAt(p: RetryPolicy, states: seq<System>, actions: seq<Action>, j: nat)
    requires j < |actions| && |states| == |actions| + 1
  {
    Takes(p, states[j], actions[j], states[j + 1])
  }

  lemma RunTakes(p: RetryPolicy, states: seq<System>, actions: seq<Action>, n: nat)
    requires IsRun(p, states, actions) && n < |actions|
    ensures Takes(p, states[n], actions[n], states[n + 1])
  {
    assert TakesAt(p, states, actions, n);
  }

  ghost predicate IsRun(p: RetryPolicy, states: seq<System>, actions: seq<Action>) {
    && |states| == |actions| + 1
    && (forall j {:trigger TakesAt(p, states, actions, j)} :: 0 <= j < |actions| ==> TakesAt(p, states, actions, j))
  }

  /** An empty outbox and idle processes, however many. */
  predicate IsInitial(s: System) {
    s.rows == [] && s.tallies == [] && s.events == {} && s.committed == {} && s.log == []
    && forall i :: 0 <= i < |s.procs| ==> s.procs[i].Idle?
  }

  // ----- one record: schedule and attempts

  /** Claims that neither a requeue gave back nor an administrative reset forgave. */
  function NetClaims(p: RetryPolicy, t: Tally): int {
    t.claims - t.requeues - t.resets * p.maxAttempts
  }

  predicate RowOk(p: RetryPolicy, r: Record, t: Tally, clock: real) {
    && RowFits(p, r, clock)
    && (r.IsTerminal() ==> r.nextAttemptAt.None?)
    && r.attempts <= p.maxAttempts + t.requeues
    && (r.state == Pending ==> r.attempts < p.maxAttempts + t.requeues)
    && NetClaims(p, t) <= r.attempts
    && NetClaims(p, t) <= p.maxAttempts
    && (r.state == Pending ==> NetClaims(p, t) < p.maxAttempts)
  }

  /** When the repository writes the event, and with which readings. */
  predicate EventOk(p: RetryPolicy, r: Record, ev: RowEvent, clock: real) {
    match ev
    case RetiredAt(now) => now <= clock
    case ClaimedAt(now) => now <= clock && IsEligible(p, r, now)
    case Marking(mark) => mark.now <= clock && (mark.Fail? ==> mark.later <= clock)
    case ResetAt(now) => now <= clock && r.state == DeadLetter
    case _ => true
  }

  lemma ResetForgives(p: RetryPolicy, t: Tally)
    ensures NetClaims(p, t.(resets := t.resets + 1)) == NetClaims(p, t) - p.maxAttempts
  {
  }

  lemma RowStep(p: RetryPolicy, r: Record, t: Tally, ev: RowEvent, clock: real)
    requires 1 <= p.maxAttempts
    requires RowOk(p, r, t, clock) && EventOk(p, r, ev, clock)
    ensures RowOk(p, Touched(p, r, ev), TallyAfter(t, ev), clock)
  {
    ResetForgives(p, t);
    if ev.Marking? {
      MarksFit(p, r, ev.mark, clock);
    }
  }
}
