/**
 * The durable outbox of backend/app/event_delivery/outbox_repository.py: the table of
 * delivery records and the statements that change it.
 *
 * Rows are never deleted, so a row's position is its primary key. Times are reals in
 * seconds; each clock reading of the source is a parameter.
 */
module Outbox {
  import opened Common

  type EventId = string
  type ConsumerId = string

  datatype DeliveryState = Pending | InFlight | Delivered | Failed | DeadLetter

  datatype Record = Record(
    event: EventId, consumer: ConsumerId, state: DeliveryState, attempts: nat,
    nextAttemptAt: Option<real>, lastError: Option<string>, createdAt: real, updatedAt: real)
  {
    predicate IsFor(e: EventId, c: ConsumerId) {
      event == e && consumer == c
    }

    predicate IsTerminal() {
      state == Delivered || state == DeadLetter
    }
  }

  datatype RetryPolicy = RetryPolicy(staleLease: real, maxAttempts: nat, backoffBase: real)

  const BACKOFF_CAP := 60.0

  /** UNIQUE(event_id, consumer_id). */
  ghost predicate UniquePairs(rows: seq<Record>) {
    forall i, j :: 0 <= i < j < |rows| ==> !rows[i].IsFor(rows[j].event, rows[j].consumer)
  }

  ghost predicate HasRecord(rows: seq<Record>, e: EventId, c: ConsumerId) {
    exists i :: 0 <= i < |rows| && rows[i].IsFor(e, c)
  }

  // ----- what each statement does to a row

  function NewRecord(e: EventId, c: ConsumerId, now: real): Record {
    Record(e, c, Pending, 0, None, None, now, now)
  }

  /** An expired lease whose attempts are used up: retired without another call. */
  predicate IsExhausted(p: RetryPolicy, r: Record, now: real) {
    r.state == InFlight && r.updatedAt < now - p.staleLease && r.attempts >= p.maxAttempts
  }

  function Retired(p: RetryPolicy, r: Record, now: real): Record {
    if IsExhausted(p, r, now) then r.(state := DeadLetter, nextAttemptAt := None, updatedAt := now) else r
  }

  predicate IsEligible(p: RetryPolicy, r: Record, now: real) {
    || r.state == Pending
    || (r.state == Failed && r.attempts < p.maxAttempts && (r.nextAttemptAt.None? || r.nextAttemptAt.value <= now))
    || (r.state == InFlight && r.updatedAt < now - p.staleLease && r.attempts < p.maxAttempts)
  }

  function Claimed(r: Record, now: real): Record {
    r.(state := InFlight, attempts := r.attempts + 1, updatedAt := now)
  }

  function MarkedDelivered(r: Record, now: real): Record {
    r.(state := Delivered, lastError := None, nextAttemptAt := None, updatedAt := now)
  }

  /** `attempts` and the schedule are kept. */
  function MarkedPending(r: Record, now: real): Record {
    r.(state := Pending, updatedAt := now)
  }

  function Pow2(n: nat): nat {
    if n == 0 then 1 else 2 * Pow2(n - 1)
  }

  function CappedDelay(delay: real): real {
    if delay < BACKOFF_CAP then delay else BACKOFF_CAP
  }

  function BackoffDelay(p: RetryPolicy, completedAttempts: nat): real {
    CappedDelay(p.backoffBase * Pow2(if completedAttempts == 0 then 0 else completedAttempts - 1) as real)
  }

  /** The first failure waits the base, each later one twice as long as the one before, never more than the cap. */
  lemma BackoffDoubles(p: RetryPolicy, n: nat)
    requires 0.0 <= p.backoffBase && 1 <= n
    ensures BackoffDelay(p, 0) == BackoffDelay(p, 1) == CappedDelay(p.backoffBase)
    ensures BackoffDelay(p, n + 1) == CappedDelay(2.0 * BackoffDelay(p, n))
    ensures 0.0 <= BackoffDelay(p, n) <= BACKOFF_CAP
  {
    var y := Pow2(n - 1) as real;
    assert Pow2(n) as real == 2.0 * y;
    assert p.backoffBase * (2.0 * y) == 2.0 * (p.backoffBase * y);
    ProductIsNonNegative(p.backoffBase, y);
  }

  lemma ProductIsNonNegative(x: real, y: real)
    requires 0.0 <= x && 0.0 <= y
    ensures 0.0 <= x * y
  {
  }

  /**
   * The default policy waits 2, 4, 8, 16 and 32 s after its first failures; any wait is at
   * most 60 s, and 60 s from the sixth on.
   */
  lemma DefaultWaits(lease: real, attempts: nat, n: nat)
    ensures var p := RetryPolicy(lease, attempts, 2.0);
            && BackoffDelay(p, 1) == 2.0 && BackoffDelay(p, 2) == 4.0 && BackoffDelay(p, 3) == 8.0
            && BackoffDelay(p, 4) == 16.0 && BackoffDelay(p, 5) == 32.0
            && (n >= 6 ==> BackoffDelay(p, n) == 60.0) && BackoffDelay(p, n) <= 60.0
  {
    assert Pow2(1) == 2 && Pow2(2) == 4 && Pow2(3) == 8 && Pow2(4) == 16;
    if n >= 6 {
      Pow2Grows(n - 1);
    }
  }

  lemma {:induction false} Pow2Grows(n: nat)
    requires n >= 5
    ensures Pow2(n) >= 32
  {
    if n == 5 {
      assert Pow2(4) == 16;
    } else {
      Pow2Grows(n - 1);
    }
  }

  /** An error is kept up to its first 500 characters. */
  lemma TruncatedMeans(error: string)
    ensures Truncated(error) <= error
    ensures |Truncated(error)| == if |error| <= 500 then |error| else 500
  {
  }

  function Truncated(error: string): string {
    if |error| > 500 then error[..500] else error
  }

  /** `now` stamps the row, `later` is the second reading that the schedule counts from. */
  function MarkedFailed(p: RetryPolicy, r: Record, error: string, now: real, later: real): Record {
    var stamped := r.(lastError := Some(Truncated(error)), updatedAt := now);
    if r.attempts >= p.maxAttempts then
      stamped.(state := DeadLetter, nextAttemptAt := None)
    else
      stamped.(state := Failed, nextAttemptAt := Some(later + BackoffDelay(p, r.attempts)))
  }

  function MarkedDeadLetter(r: Record, error: string, now: real): Record {
    r.(state := DeadLetter, lastError := Some(Truncated(error)), nextAttemptAt := None, updatedAt := now)
  }

  function Requeued(r: Record, now: real): Record {
    r.(state := Pending, attempts := 0, nextAttemptAt := None, lastError := None, updatedAt := now)
  }

  /** The n-th try of a record from r on: claimed and failed at each of these times. */
  function Tried(p: RetryPolicy, r: Record, times: nat -> real, n: nat): Record {
    if n == 0 then r
    else MarkedFailed(p, Claimed(Tried(p, r, times, n - 1), times(n - 1)), "consumer raised", times(n - 1),
                      times(n - 1))
  }

  /**
   * A requeued record can be claimed max_attempts times again, however often it failed before,
   * and then is given up.
   */
  lemma {:induction false} RequeueStartsOver(p: RetryPolicy, r: Record, now: real, times: nat -> real, n: nat)
    requires n <= p.maxAttempts && forall i: nat :: times(i) + 60.0 <= times(i + 1)
    ensures var tried := Tried(p, Requeued(r, now), times, n);
            && tried.attempts == n
            && (n < p.maxAttempts ==> IsEligible(p, tried, times(n)))
            && (0 < n == p.maxAttempts ==> tried.state == DeadLetter && forall t :: !IsEligible(p, tried, t))
            && (0 < n < p.maxAttempts ==> tried.state == Failed)
    ensures Requeued(r, now).lastError == None && Requeued(r, now).nextAttemptAt == None
  {
    if n > 0 {
      RequeueStartsOver(p, r, now, times, n - 1);
      assert times(n - 1) + 60.0 <= times(n - 1 + 1);
    }
  }

  // ----- what each statement does to the table

  function RetiredAll(p: RetryPolicy, rows: seq<Record>, now: real): (next: seq<Record>)
    ensures |next| == |rows|
  {
    seq(|rows|, i requires 0 <= i < |rows| => Retired(p, rows[i], now))
  }

  /** No filter, or an empty one, admits every consumer. */
  predicate Wanted(filter: set<ConsumerId>, r: Record) {
    filter == {} || r.consumer in filter
  }

  /** Some answer the database may give to the candidate SELECT: eligible rows, oldest first, at most `limit`. */
  ghost predicate IsSelection(p: RetryPolicy, rows: seq<Record>, now: real, limit: nat, filter: set<ConsumerId>,
                              candidates: seq<nat>)
  {
    && Distinct(candidates)
    && |candidates| <= limit
    && (forall i :: 0 <= i < |candidates| ==>
          candidates[i] < |rows| && IsEligible(p, rows[candidates[i]], now) && Wanted(filter, rows[candidates[i]]))
    && OldestFirst(rows, candidates)
    && (forall k :: 0 <= k < |rows| && IsEligible(p, rows[k], now) && Wanted(filter, rows[k]) && k !in candidates ==>
          |candidates| == limit && forall i :: 0 <= i < |candidates| ==>
              rows[candidates[i]].createdAt <= rows[k].createdAt)
  }

  ghost predicate OldestFirst(rows: seq<Record>, positions: seq<nat>) {
    && (forall i :: 0 <= i < |positions| ==> positions[i] < |rows|)
    && (forall i, j :: 0 <= i < j < |positions| ==> rows[positions[i]].createdAt <= rows[positions[j]].createdAt)
  }

  /**
   * What a claim may return, said of consumers: only those filtered for, if any, and all of
   * them unless the limit is reached.
   */
  lemma SelectionRespectsFilter(p: RetryPolicy, rows: seq<Record>, now: real, limit: nat, filter: set<ConsumerId>,
                                candidates: seq<nat>)
    requires IsSelection(p, rows, now, limit, filter, candidates)
    ensures |candidates| <= limit
    ensures forall i :: 0 <= i < |candidates| ==>
              candidates[i] < |rows| && (filter == {} || rows[candidates[i]].consumer in filter)
    ensures |candidates| < limit ==>
              forall k :: 0 <= k < |rows| && IsEligible(p, rows[k], now) ==>
                (filter == {} || rows[k].consumer in filter) ==> k in candidates
  {
  }

  // ----- one answer, with ties in row order

  /** Where k goes into a list ordered by creation, after its equals. */
  function InsertPoint(rows: seq<Record>, sorted: seq<nat>, k: nat): (at: nat)
    requires k < |rows| && forall i :: 0 <= i < |sorted| ==> sorted[i] < |rows|
    ensures at <= |sorted|
    ensures at > 0 ==> rows[sorted[at - 1]].createdAt <= rows[k].createdAt
    ensures forall i :: at <= i < |sorted| ==> rows[sorted[i]].createdAt > rows[k].createdAt
  {
    if sorted == [] || rows[sorted[|sorted| - 1]].createdAt <= rows[k].createdAt then |sorted|
    else InsertPoint(rows, sorted[..|sorted| - 1], k)
  }

  function Insert(s: seq<nat>, at: nat, k: nat): (longer: seq<nat>)
    requires at <= |s|
    ensures |longer| == |s| + 1
    ensures forall i :: 0 <= i < |longer| ==> longer[i] == if i < at then s[i] else if i == at then k else s[i - 1]
  {
    s[..at] + [k] + s[at..]
  }

  lemma InsertMembers(s: seq<nat>, at: nat, k: nat)
    requires at <= |s|
    ensures forall x :: x in Insert(s, at, k) <==> x in s || x == k
    ensures Distinct(s) && k !in s ==> Distinct(Insert(s, at, k))
  {
    assert s == s[..at] + s[at..];
    assert forall x :: x in s <==> x in s[..at] || x in s[at..];
  }

  lemma InsertingKeepsOrder(rows: seq<Record>, sorted: seq<nat>, k: nat)
    requires k < |rows| && OldestFirst(rows, sorted)
    ensures OldestFirst(rows, Insert(sorted, InsertPoint(rows, sorted, k), k))
  {
    InsertingBetween(rows, sorted, InsertPoint(rows, sorted, k), k);
  }

  lemma InsertingBetween(rows: seq<Record>, sorted: seq<nat>, at: nat, k: nat)
    requires k < |rows| && OldestFirst(rows, sorted) && at <= |sorted|
    requires at > 0 ==> rows[sorted[at - 1]].createdAt <= rows[k].createdAt
    requires forall i :: at <= i < |sorted| ==> rows[sorted[i]].createdAt > rows[k].createdAt
    ensures OldestFirst(rows, Insert(sorted, at, k))
  {
    var longer := Insert(sorted, at, k);
    assert forall i :: 0 <= i < at ==> rows[sorted[i]].createdAt <= rows[k].createdAt;
    forall i, j | 0 <= i < j < |longer| ensures rows[longer[i]].createdAt <= rows[longer[j]].createdAt {
      if j < at {
        assert longer[i] == sorted[i] && longer[j] == sorted[j];
      } else if j > at && i != at {
        assert longer[j] == sorted[j - 1] && longer[i] == sorted[if i < at then i else i - 1];
      }
    }
  }

  predicate IsCandidate(p: RetryPolicy, r: Record, now: real, filter: set<ConsumerId>) {
    IsEligible(p, r, now) && Wanted(filter, r)
  }

  /** The candidates among the first n rows, in row order. */
  function Candidates(p: RetryPolicy, rows: seq<Record>, now: real, filter: set<ConsumerId>, n: nat):
      (positions: seq<nat>)
    requires n <= |rows|
  {
    if n == 0 then []
    else Candidates(p, rows, now, filter, n - 1) + if IsCandidate(p, rows[n - 1], now, filter) then [n - 1] else []
  }

  function ByAge(rows: seq<Record>, positions: seq<nat>): (sorted: seq<nat>)
    requires forall i :: 0 <= i < |positions| ==> positions[i] < |rows|
    ensures forall i :: 0 <= i < |sorted| ==> sorted[i] < |rows|
  {
    if positions == [] then []
    else
      var sorted := ByAge(rows, positions[..|positions| - 1]);
      Insert(sorted, InsertPoint(rows, sorted, positions[|positions| - 1]), positions[|positions| - 1])
  }

  lemma {:induction false} CandidatesMembers(p: RetryPolicy, rows: seq<Record>, now: real,
                                             filter: set<ConsumerId>, n: nat)
    requires n <= |rows|
    ensures StrictlyIncreasing(Candidates(p, rows, now, filter, n))
    ensures forall i :: 0 <= i < |Candidates(p, rows, now, filter, n)| ==> Candidates(p, rows, now, filter, n)[i] < n
    ensures forall k: nat :: k in Candidates(p, rows, now, filter, n) <==> k < n && IsCandidate(p, rows[k], now, filter)
  {
    if n > 0 {
      CandidatesMembers(p, rows, now, filter, n - 1);
    }
  }

  lemma {:induction false} ByAgeFacts(rows: seq<Record>, positions: seq<nat>)
    requires forall i :: 0 <= i < |positions| ==> positions[i] < |rows|
    requires Distinct(positions)
    ensures OldestFirst(rows, ByAge(rows, positions)) && Distinct(ByAge(rows, positions))
    ensures forall k :: k in ByAge(rows, positions) <==> k in positions
  {
    if positions != [] {
      var init, last := positions[..|positions| - 1], positions[|positions| - 1];
      ByAgeFacts(rows, init);
      InsertingKeepsOrder(rows, ByAge(rows, init), last);
      InsertMembers(ByAge(rows, init), InsertPoint(rows, ByAge(rows, init), last), last);
      assert forall k :: k in positions <==> k in init || k == last;
    }
  }

  /** All candidates, oldest first. */
  function Ordered(p: RetryPolicy, rows: seq<Record>, now: real, filter: set<ConsumerId>): seq<nat> {
    CandidatesMembers(p, rows, now, filter, |rows|);
    ByAge(rows, Candidates(p, rows, now, filter, |rows|))
  }

  lemma OrderedFacts(p: RetryPolicy, rows: seq<Record>, now: real, filter: set<ConsumerId>)
    ensures var all := Ordered(p, rows, now, filter);
            && OldestFirst(rows, all) && Distinct(all)
            && forall k: nat :: k in all <==> k < |rows| && IsCandidate(p, rows[k], now, filter)
  {
    CandidatesMembers(p, rows, now, filter, |rows|);
    ByAgeFacts(rows, Candidates(p, rows, now, filter, |rows|));
  }

  function Selected(p: RetryPolicy, rows: seq<Record>, now: real, limit: nat, filter: set<ConsumerId>): seq<nat> {
    var all := Ordered(p, rows, now, filter);
    if |all| > limit then all[..limit] else all
  }

  /** The database always has an answer, and this is one. */
  lemma SelectedIsSelection(p: RetryPolicy, rows: seq<Record>, now: real, limit: nat, filter: set<ConsumerId>)
    ensures IsSelection(p, rows, now, limit, filter, Selected(p, rows, now, limit, filter))
  {
    var all, chosen := Ordered(p, rows, now, filter), Selected(p, rows, now, limit, filter);
    OrderedFacts(p, rows, now, filter);
    forall i | 0 <= i < |chosen|
      ensures chosen[i] < |rows| && IsEligible(p, rows[chosen[i]], now) && Wanted(filter, rows[chosen[i]])
    {
      assert chosen[i] == all[i] && all[i] in all;
    }
    forall k | 0 <= k < |rows| && IsEligible(p, rows[k], now) && Wanted(filter, rows[k]) && k !in chosen
      ensures |chosen| == limit && forall i :: 0 <= i < |chosen| ==> rows[chosen[i]].createdAt <= rows[k].createdAt
    {
      OmittedIsYounger(p, rows, now, limit, filter, k);
    }
  }

  lemma OmittedIsYounger(p: RetryPolicy, rows: seq<Record>, now: real, limit: nat, filter: set<ConsumerId>, k: nat)
    requires k < |rows| && IsCandidate(p, rows[k], now, filter) && k !in Selected(p, rows, now, limit, filter)
    ensures var chosen := Selected(p, rows, now, limit, filter);
            |chosen| == limit && forall i :: 0 <= i < |chosen| ==>
                chosen[i] < |rows| && rows[chosen[i]].createdAt <= rows[k].createdAt
  {
    var all, chosen := Ordered(p, rows, now, filter), Selected(p, rows, now, limit, filter);
    OrderedFacts(p, rows, now, filter);
    forall i | 0 <= i < |chosen| ensures all[i] != k {
      assert all[i] == chosen[i] && chosen[i] in chosen;
    }
    var j :| 0 <= j < |all| && all[j] == k;
  }

  // ----- the repository

  function RecordIndex(rows: seq<Record>, e: EventId, c: ConsumerId): (at: nat)
    ensures at <= |rows|
    ensures at < |rows| ==> rows[at].IsFor(e, c)
    ensures forall i :: 0 <= i < at ==> !rows[i].IsFor(e, c)
  {
    if rows == [] || rows[0].IsFor(e, c) then 0 else 1 + RecordIndex(rows[1..], e, c)
  }

  /** The four unguarded outcomes a caller may write on a pair's record. */
  datatype Mark =
    | Deliver(now: real)
    | Return(now: real)
    | Fail(error: string, now: real, later: real)
    | Bury(error: string, now: real)

  function Applied(p: RetryPolicy, r: Record, m: Mark): Record {
    match m
    case Deliver(now) => MarkedDelivered(r, now)
    case Return(now) => MarkedPending(r, now)
    case Fail(error, now, later) => MarkedFailed(p, r, error, now, later)
    case Bury(error, now) => MarkedDeadLetter(r, error, now)
  }

  /** The record of the pair marked, every other row kept; nothing happens to a pair without a record. */
  function Marked(p: RetryPolicy, rows: seq<Record>, e: EventId, c: ConsumerId, m: Mark): (next: seq<Record>)
    ensures |next| == |rows|
  {
    var at := RecordIndex(rows, e, c);
    if at < |rows| then rows[at := Applied(p, rows[at], m)] else rows
  }

  function Enqueued(rows: seq<Record>, e: EventId, c: ConsumerId, now: real): seq<Record> {
    if RecordIndex(rows, e, c) < |rows| then rows else rows + [NewRecord(e, c, now)]
  }

  /** Enqueue for each consumer in turn; the i-th new record carries the i-th clock reading. */
  function EnqueuedAll(rows: seq<Record>, e: EventId, consumers: seq<ConsumerId>, clock: nat -> real): seq<Record> {
    if consumers == [] then rows
    else Enqueued(EnqueuedAll(rows, e, consumers[..|consumers| - 1], clock), e, consumers[|consumers| - 1],
                  clock(|consumers| - 1))
  }

  /** Each consumer without a record gets one, created at its own clock reading; the records there were stay. */
  lemma {:induction false} EnqueuedAllRecords(rows: seq<Record>, e: EventId, consumers: seq<ConsumerId>,
                                              clock: nat -> real, j: nat)
    requires j < |consumers| && forall i :: 0 <= i < j ==> consumers[i] != consumers[j]
    ensures rows <= EnqueuedAll(rows, e, consumers, clock)
    ensures HasRecord(EnqueuedAll(rows, e, consumers, clock), e, consumers[j])
    ensures !HasRecord(rows, e, consumers[j]) ==>
              Record(e, consumers[j], Pending, 0, None, None, clock(j), clock(j))
              in EnqueuedAll(rows, e, consumers, clock)
    decreases |consumers|
  {
    var n := |consumers| - 1;
    var before := EnqueuedAll(rows, e, consumers[..n], clock);
    if j < n {
      EnqueuedAllRecords(rows, e, consumers[..n], clock, j);
      EnqueuedKeeps(before, e, consumers[n], clock(n));
      HasRecordStays(before, EnqueuedAll(rows, e, consumers, clock), e, consumers[j]);
    } else {
      LastEnqueued(rows, e, consumers, clock);
    }
  }

  lemma LastEnqueued(rows: seq<Record>, e: EventId, consumers: seq<ConsumerId>, clock: nat -> real)
    requires consumers != [] && consumers[|consumers| - 1] !in consumers[..|consumers| - 1]
    ensures var n, next := |consumers| - 1, EnqueuedAll(rows, e, consumers, clock);
            && rows <= next && HasRecord(next, e, consumers[n])
            && (!HasRecord(rows, e, consumers[n]) ==>
                  Record(e, consumers[n], Pending, 0, None, None, clock(n), clock(n)) in next)
  {
    var n := |consumers| - 1;
    EnqueuedAllExtends(rows, e, consumers[..n], clock);
    EnqueuedKeeps(EnqueuedAll(rows, e, consumers[..n], clock), e, consumers[n], clock(n));
    if !HasRecord(rows, e, consumers[n]) {
      OthersAddNothing(rows, e, consumers[..n], clock, consumers[n]);
    }
  }

  lemma EnqueuedKeeps(rows: seq<Record>, e: EventId, c: ConsumerId, now: real)
    ensures rows <= Enqueued(rows, e, c, now) && HasRecord(Enqueued(rows, e, c, now), e, c)
    ensures !HasRecord(rows, e, c) ==>
              Record(e, c, Pending, 0, None, None, now, now) in Enqueued(rows, e, c, now)
  {
    var next, at := Enqueued(rows, e, c, now), RecordIndex(rows, e, c);
    assert at < |next| && next[at].IsFor(e, c);
    assert at == |rows| ==> next[at] == Record(e, c, Pending, 0, None, None, now, now);
  }

  lemma HasRecordStays(rows: seq<Record>, next: seq<Record>, e: EventId, c: ConsumerId)
    requires rows <= next && HasRecord(rows, e, c)
    ensures HasRecord(next, e, c)
  {
    var i :| 0 <= i < |rows| && rows[i].IsFor(e, c);
    assert next[i].IsFor(e, c);
  }

  lemma {:induction false} EnqueuedAllExtends(rows: seq<Record>, e: EventId, consumers: seq<ConsumerId>,
                                              clock: nat -> real)
    ensures rows <= EnqueuedAll(rows, e, consumers, clock)
  {
    if consumers != [] {
      EnqueuedAllExtends(rows, e, consumers[..|consumers| - 1], clock);
    }
  }

  lemma {:induction false} OthersAddNothing(rows: seq<Record>, e: EventId, consumers: seq<ConsumerId>,
                                            clock: nat -> real, c: ConsumerId)
    requires c !in consumers && !HasRecord(rows, e, c)
    ensures !HasRecord(EnqueuedAll(rows, e, consumers, clock), e, c)
  {
    if consumers != [] {
      OthersAddNothing(rows, e, consumers[..|consumers| - 1], clock, c);
    }
  }

  function ClaimedAll(rows: seq<Record>, positions: seq<nat>, now: real): (next: seq<Record>)
    ensures |next| == |rows|
  {
    seq(|rows|, k requires 0 <= k < |rows| => if k in positions then Claimed(rows[k], now) else rows[k])
  }

  lemma ClaimedAllGrows(rows: seq<Record>, positions: seq<nat>, k: nat, now: real)
    requires k < |rows| && k !in positions
    ensures ClaimedAll(rows, positions + [k], now) == ClaimedAll(rows, positions, now)[k := Claimed(rows[k], now)]
    ensures ClaimedAll(rows, positions, now)[k] == rows[k]
  {
  }

  /** Under the uniqueness constraint it does not matter which row of a pair is looked up. */
  lemma RecordIndexIsUnique(rows: seq<Record>, e: EventId, c: ConsumerId, at: nat)
    requires UniquePairs(rows) && at < |rows| && rows[at].IsFor(e, c)
    ensures RecordIndex(rows, e, c) == at
  {
  }

  /** Enqueueing is idempotent and keeps one record per pair. */
  lemma EnqueuedKeepsUnique(rows: seq<Record>, e: EventId, c: ConsumerId, now: real)
    requires UniquePairs(rows)
    ensures UniquePairs(Enqueued(rows, e, c, now))
    ensures HasRecord(Enqueued(rows, e, c, now), e, c)
    ensures rows <= Enqueued(rows, e, c, now)
    ensures forall later :: Enqueued(Enqueued(rows, e, c, now), e, c, later) == Enqueued(rows, e, c, now)
  {
    var next := Enqueued(rows, e, c, now);
    var at := RecordIndex(next, e, c);
    assert next[RecordIndex(rows, e, c)].IsFor(e, c);
    assert at < |next|;
  }

  class OutboxRepository {
    const policy: RetryPolicy
    var rows: seq<Record>

    constructor (policy: RetryPolicy)
      ensures this.policy == policy && rows == []
    {
      this.policy, rows := policy, [];
    }

    method Enqueue(e: EventId, c: ConsumerId, now: real) returns (created: bool)
      requires UniquePairs(rows)
      modifies this`rows
      ensures UniquePairs(rows)
      ensures created <==> !HasRecord(old(rows), e, c)
      ensures rows == Enqueued(old(rows), e, c, now)
    {
      EnqueuedKeepsUnique(rows, e, c, now);
      if RecordIndex(rows, e, c) < |rows| {
        return false;
      }
      rows := rows + [NewRecord(e, c, now)];
      return true;
    }

    method EnqueueMany(e: EventId, consumers: seq<ConsumerId>, clock: nat -> real) returns (created: nat)
      requires UniquePairs(rows)
      modifies this`rows
      ensures UniquePairs(rows)
      ensures rows == EnqueuedAll(old(rows), e, consumers, clock)
      ensures created == |rows| - |old(rows)|
    {
      created := 0;
      for i := 0 to |consumers|
        invariant UniquePairs(rows)
        invariant rows == EnqueuedAll(old(rows), e, consumers[..i], clock)
        invariant created == |rows| - |old(rows)|
      {
        assert consumers[..i + 1][..i] == consumers[..i];
        var isNew := Enqueue(e, consumers[i], clock(i));
        if isNew {
          created := created + 1;
        }
      }
      assert consumers[..|consumers|] == consumers;
    }

    /** Retires exhausted leases, selects, and claims each candidate by a conditional update. */
    method ClaimPending(now: real, limit: nat, filter: set<ConsumerId>) returns (claimed: seq<nat>)
      modifies this`rows
      ensures IsSelection(policy, RetiredAll(policy, old(rows), now), now, limit, filter, claimed)
      ensures claimed == Selected(policy, RetiredAll(policy, old(rows), now), now, limit, filter)
      ensures rows == ClaimedAll(RetiredAll(policy, old(rows), now), claimed, now)
    {
      rows := RetiredAll(policy, rows, now);
      SelectedIsSelection(policy, rows, now, limit, filter);
      claimed := ClaimEach(Selected(policy, rows, now, limit, filter), now);
    }

    /** The conditional updates: nobody interferes here, so each of them wins. */
    method ClaimEach(candidates: seq<nat>, now: real) returns (claimed: seq<nat>)
      requires Distinct(candidates)
      requires forall i :: 0 <= i < |candidates| ==>
                 candidates[i] < |rows| && IsEligible(policy, rows[candidates[i]], now)
      modifies this`rows
      ensures claimed == candidates && rows == ClaimedAll(old(rows), candidates, now)
    {
      claimed := [];
      for i := 0 to |candidates|
        invariant claimed == candidates[..i]
        invariant rows == ClaimedAll(old(rows), claimed, now)
      {
        var rid := candidates[i];
        assert rid !in claimed;
        ClaimedAllGrows(old(rows), claimed, rid, now);
        if IsEligible(policy, rows[rid], now) {
          rows := rows[rid := Claimed(rows[rid], now)];
          claimed := claimed + [rid];
        }
      }
    }

    method MarkDelivered(e: EventId, c: ConsumerId, now: real)
      modifies this`rows
      ensures rows == Marked(policy, old(rows), e, c, Deliver(now))
    {
      var at := RecordIndex(rows, e, c);
      if at < |rows| {
        rows := rows[at := rows[at].(state := Delivered, lastError := None, nextAttemptAt := None, updatedAt := now)];
      }
    }

    method MarkPending(e: EventId, c: ConsumerId, now: real)
      modifies this`rows
      ensures rows == Marked(policy, old(rows), e, c, Return(now))
    {
      var at := RecordIndex(rows, e, c);
      if at < |rows| {
        rows := rows[at := rows[at].(state := Pending, updatedAt := now)];
      }
    }

    method MarkFailed(e: EventId, c: ConsumerId, error: string, now: real, later: real)
      modifies this`rows
      ensures rows == Marked(policy, old(rows), e, c, Fail(error, now, later))
    {
      var at := RecordIndex(rows, e, c);
      if at == |rows| {
        return;
      }
      var row := rows[at].(lastError := Some(Truncated(error)), updatedAt := now);
      if row.attempts >= policy.maxAttempts {
        row := row.(state := DeadLetter, nextAttemptAt := None);
      } else {
        row := row.(state := Failed, nextAttemptAt := Some(later + BackoffDelay(policy, row.attempts)));
      }
      rows := rows[at := row];
    }

    method MarkDeadLetter(e: EventId, c: ConsumerId, error: string, now: real)
      modifies this`rows
      ensures rows == Marked(policy, old(rows), e, c, Bury(error, now))
    {
      var at := RecordIndex(rows, e, c);
      if at < |rows| {
        rows := rows[at := MarkedDeadLetter(rows[at], error, now)];
      }
    }

    /** The only way out of DEAD_LETTER other than a late mark. */
    method RequeueDeadLetter(e: EventId, c: ConsumerId, now: real) returns (requeued: bool)
      modifies this`rows
      ensures var at := RecordIndex(old(rows), e, c);
              && (requeued <==> at < |old(rows)| && old(rows)[at].state == DeadLetter)
              && rows == if requeued then old(rows)[at := Requeued(old(rows)[at], now)] else old(rows)
    {
      var at := RecordIndex(rows, e, c);
      if at == |rows| || rows[at].state != DeadLetter {
        return false;
      }
      rows := rows[at := Requeued(rows[at], now)];
      return true;
    }
  }
}
