/**
 * In which order one dispatcher calls a consumer: the ordering contract of
 * backend/app/event_delivery/delivery_dispatcher.py, and when it holds.
 */
module DeliveryOrder {
  import opened Common
  import opened Outbox
  import opened Dispatcher
  import opened DeliverySafety

  /** Records enqueued since the last pass, then a pass; a process lost in it may or may not have called. */
  datatype Round = Round(
    added: seq<Record>, scene: Scene, now: real, limit: nat, filter: set<ConsumerId>,
    claimed: seq<nat>, replies: nat -> Reply)

  /** The table the pass starts from. */
  function Opening(rows: seq<Record>, round: Round): seq<Record> {
    rows + round.added
  }

  function Passed(p: RetryPolicy, rows: seq<Record>, round: Round): (next: seq<Record>)
    ensures |next| == |rows|
  {
    AfterPass(p, round.scene, rows, round.now, round.claimed, round.replies, |round.claimed|)
  }

  /** New records are PENDING and no older than any there is. */
  ghost predicate AddsYounger(rows: seq<Record>, added: seq<Record>) {
    && (forall i, k :: 0 <= i < |rows| && 0 <= k < |added| ==> rows[i].createdAt <= added[k].createdAt)
    && (forall k :: 0 <= k < |added| ==> added[k].state == Pending)
  }

  /** The pass claims what the database selects. */
  ghost predicate Selects(p: RetryPolicy, rows: seq<Record>, round: Round) {
    IsSelection(p, RetiredAll(p, rows, round.now), round.now, round.limit, round.filter, round.claimed)
  }

  ghost predicate IsTurn(p: RetryPolicy, rows: seq<Record>, round: Round, next: seq<Record>) {
    && AddsYounger(rows, round.added)
    && Selects(p, Opening(rows, round), round)
    && next == Passed(p, Opening(rows, round), round)
  }

  ghost predicate IsTurnAt(p: RetryPolicy, tables: seq<seq<Record>>, rounds: seq<Round>, n: nat)
    requires n < |rounds| && |tables| == |rounds| + 1
  {
    IsTurn(p, tables[n], rounds[n], tables[n + 1])
  }

  /** The rounds of one dispatcher one after the other, and the table between them. */
  ghost predicate IsHistory(p: RetryPolicy, tables: seq<seq<Record>>, rounds: seq<Round>) {
    && |tables| == |rounds| + 1
    && forall n {:trigger IsTurnAt(p, tables, rounds, n)} :: 0 <= n < |rounds| ==> IsTurnAt(p, tables, rounds, n)
  }

  lemma TurnOf(p: RetryPolicy, tables: seq<seq<Record>>, rounds: seq<Round>, n: nat)
    requires IsHistory(p, tables, rounds) && n < |rounds|
    ensures IsTurn(p, tables[n], rounds[n], tables[n + 1])
  {
    assert IsTurnAt(p, tables, rounds, n);
  }

  // ----- what the consumer hears

  /** The pass calls consumer c for its j-th claimed record. */
  predicate IsHeard(rows: seq<Record>, round: Round, c: ConsumerId, j: nat) {
    && j < |round.claimed| && round.claimed[j] < |rows|
    && rows[round.claimed[j]].consumer == c
    && CallFor(round.scene, rows[round.claimed[j]], round.replies(j)) != []
  }

  /** The creation times of the records among the first j claimed that consumer c is called for. */
  function HeardFirst(rows: seq<Record>, round: Round, c: ConsumerId, j: nat): seq<real> {
    if j == 0 then []
    else
      HeardFirst(rows, round, c, j - 1)
      + if IsHeard(rows, round, c, j - 1) then [rows[round.claimed[j - 1]].createdAt] else []
  }

  function HeardIn(rows: seq<Record>, round: Round, c: ConsumerId): seq<real> {
    HeardFirst(rows, round, c, |round.claimed|)
  }

  /** Consumer c is called for the record at k. */
  ghost predicate Called(rows: seq<Record>, round: Round, c: ConsumerId, k: nat) {
    exists j: nat :: IsHeard(rows, round, c, j) && round.claimed[j] == k
  }

  /** The creation times of all records consumer c was called for in the first n rounds, call by call. */
  function Heard(tables: seq<seq<Record>>, rounds: seq<Round>, c: ConsumerId, n: nat): seq<real>
    requires n <= |rounds| < |tables|
  {
    if n == 0 then []
    else Heard(tables, rounds, c, n - 1) + HeardIn(Opening(tables[n - 1], rounds[n - 1]), rounds[n - 1], c)
  }

  ghost predicate Sorted(times: seq<real>) {
    forall i, j :: 0 <= i < j < |times| ==> times[i] <= times[j]
  }

  ghost predicate Below(a: seq<real>, b: seq<real>) {
    forall i, j :: 0 <= i < |a| && 0 <= j < |b| ==> a[i] <= b[j]
  }

  lemma SortedParts(a: seq<real>, b: seq<real>)
    ensures Sorted(a + b) <==> Sorted(a) && Sorted(b) && Below(a, b)
  {
    var all := a + b;
    assert forall i :: 0 <= i < |a| ==> all[i] == a[i];
    assert forall i :: 0 <= i < |b| ==> all[|a| + i] == b[i];
    assert forall i :: |a| <= i < |all| ==> all[i] == b[i - |a|];
  }

  lemma SortedPrefix(a: seq<real>, b: seq<real>)
    requires a <= b
    ensures Sorted(b) ==> Sorted(a)
  {
  }

  lemma {:induction false} HeardFirstMembers(rows: seq<Record>, round: Round, c: ConsumerId, j: nat, x: real)
    ensures x in HeardFirst(rows, round, c, j) <==>
            exists i :: 0 <= i < j && IsHeard(rows, round, c, i) && rows[round.claimed[i]].createdAt == x
  {
    if j > 0 {
      HeardFirstMembers(rows, round, c, j - 1, x);
    }
  }

  lemma CalledIsHeard(rows: seq<Record>, round: Round, c: ConsumerId, k: nat)
    requires Called(rows, round, c, k)
    ensures k < |rows| && rows[k].createdAt in HeardIn(rows, round, c)
  {
    HeardFirstMembers(rows, round, c, |round.claimed|, rows[k].createdAt);
  }

  /** A time that was heard belongs to a record that was called. */
  lemma HeardWasCalled(rows: seq<Record>, round: Round, c: ConsumerId, x: real) returns (k: nat)
    requires x in HeardIn(rows, round, c)
    ensures k < |rows| && rows[k].createdAt == x && rows[k].consumer == c && Called(rows, round, c, k)
  {
    HeardFirstMembers(rows, round, c, |round.claimed|, x);
    var i :| 0 <= i < |round.claimed| && IsHeard(rows, round, c, i) && rows[round.claimed[i]].createdAt == x;
    k := round.claimed[i];
  }

  /** Within a pass the consumer hears its records oldest first. */
  lemma {:induction false} PassIsHeardInOrder(rows: seq<Record>, round: Round, c: ConsumerId, j: nat)
    requires OldestFirst(rows, round.claimed)
    ensures Sorted(HeardFirst(rows, round, c, j))
  {
    if j > 0 {
      PassIsHeardInOrder(rows, round, c, j - 1);
      if IsHeard(rows, round, c, j - 1) {
        var before, last := HeardFirst(rows, round, c, j - 1), rows[round.claimed[j - 1]].createdAt;
        forall i | 0 <= i < |before| ensures before[i] <= last {
          HeardFirstMembers(rows, round, c, j - 1, before[i]);
        }
        SortedParts(before, [last]);
      }
    }
  }

  lemma SelectionIsOldestFirst(p: RetryPolicy, rows: seq<Record>, round: Round)
    requires Selects(p, rows, round)
    ensures OldestFirst(rows, round.claimed)
  {
    assert forall k :: 0 <= k < |rows| ==> RetiredAll(p, rows, round.now)[k].createdAt == rows[k].createdAt;
  }

  // ----- what a round does to a record

  /** A DELIVERED record is not called and stays; one that becomes DELIVERED is called. */
  lemma RowInRound(p: RetryPolicy, rows: seq<Record>, round: Round, k: nat)
    requires Selects(p, rows, round) && k < |rows|
    ensures SameIdentity(rows[k], Passed(p, rows, round)[k])
    ensures rows[k].state == Delivered ==>
              Passed(p, rows, round)[k].state == Delivered && !Called(rows, round, rows[k].consumer, k)
    ensures rows[k].state != Delivered && Passed(p, rows, round)[k].state == Delivered ==>
              Called(rows, round, rows[k].consumer, k)
  {
    RowAfterKeepsPair(p, round.scene, rows[k], k, round.now, round.claimed, round.replies, |round.claimed|);
    var at := FirstIndex(round.claimed, k);
    if at < |round.claimed| {
      assert IsEligible(p, RetiredAll(p, rows, round.now)[k], round.now);
      if Passed(p, rows, round)[k].state == Delivered {
        assert IsHeard(rows, round, rows[k].consumer, at);
      }
    }
  }

  lemma RecordInTurn(p: RetryPolicy, rows: seq<Record>, round: Round, next: seq<Record>, k: nat)
    requires IsTurn(p, rows, round, next) && k < |rows|
    ensures k < |Opening(rows, round)| == |next| && Opening(rows, round)[k] == rows[k]
    ensures SameIdentity(rows[k], next[k])
    ensures rows[k].state == Delivered ==>
              next[k].state == Delivered && !Called(Opening(rows, round), round, rows[k].consumer, k)
    ensures rows[k].state != Delivered && next[k].state == Delivered ==>
              Called(Opening(rows, round), round, rows[k].consumer, k)
  {
    RowInRound(p, Opening(rows, round), round, k);
  }

  lemma RecordInTurnOf(p: RetryPolicy, tables: seq<seq<Record>>, rounds: seq<Round>, n: nat, k: nat)
    requires IsHistory(p, tables, rounds) && n < |rounds| && k < |tables[n]|
    ensures k < |Opening(tables[n], rounds[n])| == |tables[n + 1]|
    ensures Opening(tables[n], rounds[n])[k] == tables[n][k] && SameIdentity(tables[n][k], tables[n + 1][k])
    ensures tables[n][k].state == Delivered ==>
              && tables[n + 1][k].state == Delivered
              && !Called(Opening(tables[n], rounds[n]), rounds[n], tables[n][k].consumer, k)
    ensures tables[n][k].state != Delivered && tables[n + 1][k].state == Delivered ==>
              Called(Opening(tables[n], rounds[n]), rounds[n], tables[n][k].consumer, k)
  {
    TurnOf(p, tables, rounds, n);
    RecordInTurn(p, tables[n], rounds[n], tables[n + 1], k);
  }

  lemma OpeningInTurn(p: RetryPolicy, tables: seq<seq<Record>>, rounds: seq<Round>, n: nat, k: nat)
    requires IsHistory(p, tables, rounds) && n < |rounds| && k < |Opening(tables[n], rounds[n])|
    ensures k < |tables[n + 1]| && SameIdentity(Opening(tables[n], rounds[n])[k], tables[n + 1][k])
  {
    TurnOf(p, tables, rounds, n);
    RowInRound(p, Opening(tables[n], rounds[n]), rounds[n], k);
  }

  lemma {:induction false} RecordPersists(p: RetryPolicy, tables: seq<seq<Record>>, rounds: seq<Round>,
                                          m: nat, n: nat, k: nat)
    requires IsHistory(p, tables, rounds) && m <= n <= |rounds| && k < |tables[m]|
    ensures k < |tables[n]| && SameIdentity(tables[m][k], tables[n][k])
    ensures tables[m][k].state == Delivered ==> tables[n][k].state == Delivered
  {
    if m < n {
      RecordPersists(p, tables, rounds, m, n - 1, k);
      RecordInTurnOf(p, tables, rounds, n - 1, k);
    }
  }

  /** Whoever becomes DELIVERED between two points was called in a round between them. */
  lemma {:induction false} DeliveredWasCalled(p: RetryPolicy, tables: seq<seq<Record>>, rounds: seq<Round>,
                                              m: nat, n: nat, k: nat)
    returns (at: nat)
    requires IsHistory(p, tables, rounds) && m <= n <= |rounds| && k < |tables[m]| && k < |tables[n]|
    requires tables[m][k].state != Delivered && tables[n][k].state == Delivered
    ensures m <= at < n && k < |tables[at]| && SameIdentity(tables[m][k], tables[at][k])
    ensures Called(Opening(tables[at], rounds[at]), rounds[at], tables[m][k].consumer, k)
  {
    RecordPersists(p, tables, rounds, m, n - 1, k);
    RecordInTurnOf(p, tables, rounds, n - 1, k);
    if tables[n - 1][k].state == Delivered {
      at := DeliveredWasCalled(p, tables, rounds, m, n - 1, k);
    } else {
      at := n - 1;
    }
  }

  /** Records that join the table later are no older than those already there. */
  lemma {:induction false} LaterIsYounger(p: RetryPolicy, tables: seq<seq<Record>>, rounds: seq<Round>,
                                          m: nat, n: nat, i: nat, k: nat)
    requires IsHistory(p, tables, rounds) && m <= n < |rounds|
    requires i < |tables[m]| <= k < |Opening(tables[n], rounds[n])|
    ensures tables[m][i].createdAt <= Opening(tables[n], rounds[n])[k].createdAt
  {
    RecordPersists(p, tables, rounds, m, n, i);
    if k < |tables[n]| {
      ComesFromOpening(p, tables, rounds, n - 1, k);
      LaterIsYounger(p, tables, rounds, m, n - 1, i, k);
    } else {
      AddedIsYounger(p, tables, rounds, n, i, k);
    }
  }

  lemma ComesFromOpening(p: RetryPolicy, tables: seq<seq<Record>>, rounds: seq<Round>, n: nat, k: nat)
    requires IsHistory(p, tables, rounds) && n < |rounds| && k < |tables[n + 1]|
    ensures k < |Opening(tables[n], rounds[n])|
    ensures SameIdentity(Opening(tables[n], rounds[n])[k], tables[n + 1][k])
  {
    TurnOf(p, tables, rounds, n);
    OpeningInTurn(p, tables, rounds, n, k);
  }

  lemma AddedIsYounger(p: RetryPolicy, tables: seq<seq<Record>>, rounds: seq<Round>, n: nat, i: nat, k: nat)
    requires IsHistory(p, tables, rounds) && n < |rounds| && i < |tables[n]| <= k < |Opening(tables[n], rounds[n])|
    ensures tables[n][i].createdAt <= Opening(tables[n], rounds[n])[k].createdAt
  {
    TurnOf(p, tables, rounds, n);
    assert Opening(tables[n], rounds[n])[k] == rounds[n].added[k - |tables[n]|];
  }

  // ----- the order of all calls

  /** The round calls c for record b and leaves an older record a of c undelivered. */
  ghost predicate Overtakes(rows: seq<Record>, round: Round, next: seq<Record>, c: ConsumerId, a: nat, b: nat) {
    && a < |rows| && a < |next| && b < |rows|
    && rows[a].consumer == c && rows[a].createdAt < rows[b].createdAt
    && Called(rows, round, c, b) && next[a].state != Delivered
  }

  ghost predicate OvertakesAt(tables: seq<seq<Record>>, rounds: seq<Round>, c: ConsumerId, n: nat, a: nat, b: nat)
    requires n < |rounds| && |tables| == |rounds| + 1
  {
    Overtakes(Opening(tables[n], rounds[n]), rounds[n], tables[n + 1], c, a, b)
  }

  /** In no round. */
  ghost predicate NobodyOvertakes(tables: seq<seq<Record>>, rounds: seq<Round>, c: ConsumerId)
    requires |tables| == |rounds| + 1
  {
    forall n: nat, a: nat, b: nat :: n < |rounds| ==> !OvertakesAt(tables, rounds, c, n, a, b)
  }

  lemma {:induction false} EarlierWasCalled(tables: seq<seq<Record>>, rounds: seq<Round>, c: ConsumerId, n: nat,
                                            x: real)
    returns (m: nat, k: nat)
    requires n <= |rounds| < |tables| && x in Heard(tables, rounds, c, n)
    ensures m < n && Called(Opening(tables[m], rounds[m]), rounds[m], c, k)
    ensures k < |Opening(tables[m], rounds[m])| && Opening(tables[m], rounds[m])[k].createdAt == x
  {
    if x in Heard(tables, rounds, c, n - 1) {
      m, k := EarlierWasCalled(tables, rounds, c, n - 1, x);
    } else {
      m := n - 1;
      k := HeardWasCalled(Opening(tables[m], rounds[m]), rounds[m], c, x);
    }
  }

  /** A call after a younger record's call in an earlier round means that this round left it behind. */
  lemma LateCallWasOvertaken(p: RetryPolicy, tables: seq<seq<Record>>, rounds: seq<Round>, c: ConsumerId,
                             m: nat, b: nat, n: nat, a: nat)
    requires IsHistory(p, tables, rounds) && m < n < |rounds|
    requires b < |Opening(tables[m], rounds[m])| && Called(Opening(tables[m], rounds[m]), rounds[m], c, b)
    requires a < |Opening(tables[n], rounds[n])| && Called(Opening(tables[n], rounds[n]), rounds[n], c, a)
    requires Opening(tables[n], rounds[n])[a].createdAt < Opening(tables[m], rounds[m])[b].createdAt
    ensures OvertakesAt(tables, rounds, c, m, a, b)
  {
    OpeningInTurn(p, tables, rounds, m, b);
    if a >= |tables[m + 1]| {
      LaterIsYounger(p, tables, rounds, m + 1, n, b, a);
      assert false;
    }
    RecordPersists(p, tables, rounds, m + 1, n, a);
    RecordInTurnOf(p, tables, rounds, n, a);
    ComesFromOpening(p, tables, rounds, m, a);
  }

  /** When no round leaves an older record behind, the consumer hears its records in enqueue order. */
  lemma {:induction false} NobodyOvertakesInOrder(p: RetryPolicy, tables: seq<seq<Record>>, rounds: seq<Round>,
                                                  c: ConsumerId, n: nat)
    requires IsHistory(p, tables, rounds) && n <= |rounds| && NobodyOvertakes(tables, rounds, c)
    ensures Sorted(Heard(tables, rounds, c, n))
  {
    if n > 0 {
      NobodyOvertakesInOrder(p, tables, rounds, c, n - 1);
      TurnIsHeardInOrder(p, tables, rounds, c, n - 1);
      EarlierIsBelow(p, tables, rounds, c, n - 1);
      SortedParts(Heard(tables, rounds, c, n - 1), HeardIn(Opening(tables[n - 1], rounds[n - 1]), rounds[n - 1], c));
    }
  }

  lemma TurnIsHeardInOrder(p: RetryPolicy, tables: seq<seq<Record>>, rounds: seq<Round>, c: ConsumerId, n: nat)
    requires IsHistory(p, tables, rounds) && n < |rounds|
    ensures Sorted(HeardIn(Opening(tables[n], rounds[n]), rounds[n], c))
  {
    TurnOf(p, tables, rounds, n);
    SelectionIsOldestFirst(p, Opening(tables[n], rounds[n]), rounds[n]);
    PassIsHeardInOrder(Opening(tables[n], rounds[n]), rounds[n], c, |rounds[n].claimed|);
  }

  lemma EarlierIsBelow(p: RetryPolicy, tables: seq<seq<Record>>, rounds: seq<Round>, c: ConsumerId, n: nat)
    requires IsHistory(p, tables, rounds) && n < |rounds| && NobodyOvertakes(tables, rounds, c)
    ensures Below(Heard(tables, rounds, c, n), HeardIn(Opening(tables[n], rounds[n]), rounds[n], c))
  {
    var earlier, last := Heard(tables, rounds, c, n), HeardIn(Opening(tables[n], rounds[n]), rounds[n], c);
    forall i, j | 0 <= i < |earlier| && 0 <= j < |last| ensures earlier[i] <= last[j] {
      EarlierIsNoYounger(p, tables, rounds, c, n, earlier[i], last[j]);
    }
  }

  lemma EarlierIsNoYounger(p: RetryPolicy, tables: seq<seq<Record>>, rounds: seq<Round>, c: ConsumerId, n: nat,
                           x: real, y: real)
    requires IsHistory(p, tables, rounds) && n < |rounds| && NobodyOvertakes(tables, rounds, c)
    requires x in Heard(tables, rounds, c, n) && y in HeardIn(Opening(tables[n], rounds[n]), rounds[n], c)
    ensures x <= y
  {
    var m, b := EarlierWasCalled(tables, rounds, c, n, x);
    var a := HeardWasCalled(Opening(tables[n], rounds[n]), rounds[n], c, y);
    if y < x {
      LateCallWasOvertaken(p, tables, rounds, c, m, b, n, a);
      assert false;
    }
  }

  lemma {:induction false} HeardPrefix(tables: seq<seq<Record>>, rounds: seq<Round>, c: ConsumerId, m: nat, n: nat)
    requires m <= n <= |rounds| < |tables|
    ensures Heard(tables, rounds, c, m) <= Heard(tables, rounds, c, n)
  {
    if m < n {
      HeardPrefix(tables, rounds, c, m, n - 1);
    }
  }

  /** Calls in two rounds, the earlier one for the younger record: the calls are out of order. */
  lemma CallsOutOfOrder(tables: seq<seq<Record>>, rounds: seq<Round>, c: ConsumerId, m: nat, b: nat, n: nat, a: nat)
    requires m < n < |rounds| < |tables|
    requires Called(Opening(tables[m], rounds[m]), rounds[m], c, b)
    requires Called(Opening(tables[n], rounds[n]), rounds[n], c, a)
    requires b < |Opening(tables[m], rounds[m])| && a < |Opening(tables[n], rounds[n])|
    requires Opening(tables[n], rounds[n])[a].createdAt < Opening(tables[m], rounds[m])[b].createdAt
    ensures !Sorted(Heard(tables, rounds, c, |rounds|))
  {
    var x, y := Opening(tables[m], rounds[m])[b].createdAt, Opening(tables[n], rounds[n])[a].createdAt;
    CalledIsHeard(Opening(tables[m], rounds[m]), rounds[m], c, b);
    CalledIsHeard(Opening(tables[n], rounds[n]), rounds[n], c, a);
    HeardPrefix(tables, rounds, c, m + 1, n);
    HeardPrefix(tables, rounds, c, n + 1, |rounds|);
    SortedParts(Heard(tables, rounds, c, n), HeardIn(Opening(tables[n], rounds[n]), rounds[n], c));
    SortedPrefix(Heard(tables, rounds, c, n + 1), Heard(tables, rounds, c, |rounds|));
    InPrefix(Heard(tables, rounds, c, m + 1), Heard(tables, rounds, c, n), x);
    NotBelow(Heard(tables, rounds, c, n), HeardIn(Opening(tables[n], rounds[n]), rounds[n], c), x, y);
  }

  lemma InPrefix(a: seq<real>, b: seq<real>, x: real)
    requires a <= b && x in a
    ensures x in b
  {
  }

  lemma NotBelow(a: seq<real>, b: seq<real>, x: real, y: real)
    requires x in a && y in b && y < x
    ensures !Below(a, b)
  {
  }

  ghost predicate AllDelivered(rows: seq<Record>, c: ConsumerId) {
    forall k :: 0 <= k < |rows| && rows[k].consumer == c ==> rows[k].state == Delivered
  }

  /** An overtaken record that is DELIVERED in the end was heard after its younger one. */
  lemma OvertakenIsHeardLate(p: RetryPolicy, tables: seq<seq<Record>>, rounds: seq<Round>, c: ConsumerId,
                             m: nat, a: nat, b: nat)
    requires IsHistory(p, tables, rounds) && m < |rounds| && OvertakesAt(tables, rounds, c, m, a, b)
    requires AllDelivered(tables[|rounds|], c)
    ensures !Sorted(Heard(tables, rounds, c, |rounds|))
  {
    OpeningInTurn(p, tables, rounds, m, a);
    RecordPersists(p, tables, rounds, m + 1, |rounds|, a);
    var n := DeliveredWasCalled(p, tables, rounds, m + 1, |rounds|, a);
    RecordInTurnOf(p, tables, rounds, n, a);
    CallsOutOfOrder(tables, rounds, c, m, b, n, a);
  }

  /**
   * Once all records of a consumer are DELIVERED: its calls came in enqueue order exactly when
   * no round called it for a record and left an older one of its records undelivered.
   */
  lemma HeardInOrderIff(p: RetryPolicy, tables: seq<seq<Record>>, rounds: seq<Round>, c: ConsumerId)
    requires IsHistory(p, tables, rounds) && AllDelivered(tables[|rounds|], c)
    ensures Sorted(Heard(tables, rounds, c, |rounds|)) <==> NobodyOvertakes(tables, rounds, c)
    ensures NobodyOvertakes(tables, rounds, c) <==> NobodyHeldBack(p, tables, rounds, c)
  {
    OvertakenIsHeldBack(p, tables, rounds, c);
    if NobodyOvertakes(tables, rounds, c) {
      NobodyOvertakesInOrder(p, tables, rounds, c, |rounds|);
    } else {
      var n: nat, a: nat, b: nat :| n < |rounds| && OvertakesAt(tables, rounds, c, n, a, b);
      OvertakenIsHeardLate(p, tables, rounds, c, n, a, b);
    }
  }

  // ----- who is left behind

  /** Waiting for its backoff, under a lease, or out of attempts. */
  predicate IsWaiting(p: RetryPolicy, r: Record, now: real) {
    || (r.state == Failed && (r.attempts >= p.maxAttempts || (r.nextAttemptAt.Some? && r.nextAttemptAt.value > now)))
    || (r.state == InFlight && (r.attempts >= p.maxAttempts || r.updatedAt >= now - p.staleLease))
  }

  /**
   * Exactly which older undelivered records a pass claims along with a younger one of the
   * consumer, and before it: all but those in DEAD_LETTER or waiting when it starts.
   */
  lemma ClaimedUnlessWaiting(p: RetryPolicy, rows: seq<Record>, round: Round, a: nat, b: nat)
    requires Selects(p, rows, round) && a < |rows| && b < |rows| && rows[a].consumer == rows[b].consumer
    requires rows[a].createdAt < rows[b].createdAt && b in round.claimed && rows[a].state != Delivered
    ensures a in round.claimed <==> rows[a].state != DeadLetter && !IsWaiting(p, rows[a], round.now)
    ensures a in round.claimed ==> FirstIndex(round.claimed, a) < FirstIndex(round.claimed, b)
  {
    var retired := RetiredAll(p, rows, round.now);
    EligibleUnlessWaiting(p, rows[a], round.now);
    var j := FirstIndex(round.claimed, b);
    assert round.claimed[j] == b && Wanted(round.filter, retired[b]);
    assert retired[a] == Retired(p, rows[a], round.now) && retired[a].createdAt < retired[b].createdAt;
  }

  lemma EligibleUnlessWaiting(p: RetryPolicy, r: Record, now: real)
    requires r.state != Delivered
    ensures IsEligible(p, Retired(p, r, now), now) <==> r.state != DeadLetter && !IsWaiting(p, r, now)
  {
  }

  /** Of those it leaves undelivered all that wait or are dead, and each whose own call does not return. */
  lemma LeftBehindIff(p: RetryPolicy, rows: seq<Record>, round: Round, a: nat, b: nat)
    requires Selects(p, rows, round) && a < |rows| && b < |rows| && rows[a].consumer == rows[b].consumer
    requires rows[a].createdAt < rows[b].createdAt && b in round.claimed && rows[a].state != Delivered
    ensures Passed(p, rows, round)[a].state != Delivered <==>
            || rows[a].state == DeadLetter
            || IsWaiting(p, rows[a], round.now)
            || CallFor(round.scene, rows[a], round.replies(FirstIndex(round.claimed, a)))
               != [Call(rows[a].event, rows[a].consumer, true)]
  {
    ClaimedUnlessWaiting(p, rows, round, a, b);
    var at := FirstIndex(round.claimed, a);
    assert at < |round.claimed| <==> a in round.claimed;
    SettledIsDeliveredIff(p, round.scene, Claimed(Retired(p, rows[a], round.now), round.now), round.replies(at));
  }

  lemma SettledIsDeliveredIff(p: RetryPolicy, scene: Scene, r: Record, reply: Reply)
    requires r.state == InFlight
    ensures Settled(p, scene, r, reply).state == Delivered
            <==> CallFor(scene, r, reply) == [Call(r.event, r.consumer, true)]
  {
  }

  /** What the caller can see when the round starts, but for the outcome of record a's own call. */
  ghost predicate HeldBack(p: RetryPolicy, rows: seq<Record>, round: Round, c: ConsumerId, a: nat, b: nat) {
    && a < |rows| && b < |rows|
    && rows[a].consumer == c && rows[a].createdAt < rows[b].createdAt && Called(rows, round, c, b)
    && rows[a].state != Delivered
    && (|| rows[a].state == DeadLetter
        || IsWaiting(p, rows[a], round.now)
        || CallFor(round.scene, rows[a], round.replies(FirstIndex(round.claimed, a)))
           != [Call(rows[a].event, rows[a].consumer, true)])
  }

  ghost predicate HeldBackAt(p: RetryPolicy, tables: seq<seq<Record>>, rounds: seq<Round>, c: ConsumerId,
                             n: nat, a: nat, b: nat)
    requires n < |rounds| && |tables| == |rounds| + 1
  {
    HeldBack(p, Opening(tables[n], rounds[n]), rounds[n], c, a, b)
  }

  ghost predicate NobodyHeldBack(p: RetryPolicy, tables: seq<seq<Record>>, rounds: seq<Round>, c: ConsumerId)
    requires |tables| == |rounds| + 1
  {
    forall n: nat, a: nat, b: nat :: n < |rounds| ==> !HeldBackAt(p, tables, rounds, c, n, a, b)
  }

  lemma OvertakesIff(p: RetryPolicy, rows: seq<Record>, round: Round, c: ConsumerId, a: nat, b: nat)
    requires Selects(p, rows, round)
    ensures Overtakes(rows, round, Passed(p, rows, round), c, a, b) <==> HeldBack(p, rows, round, c, a, b)
  {
    if a < |rows| && b < |rows| && rows[a].consumer == c && rows[a].createdAt < rows[b].createdAt
       && Called(rows, round, c, b)
    {
      RowInRound(p, rows, round, a);
      if rows[a].state != Delivered {
        LeftBehindIff(p, rows, round, a, b);
      }
    }
  }

  lemma OvertakenIsHeldBack(p: RetryPolicy, tables: seq<seq<Record>>, rounds: seq<Round>, c: ConsumerId)
    requires IsHistory(p, tables, rounds)
    ensures NobodyOvertakes(tables, rounds, c) <==> NobodyHeldBack(p, tables, rounds, c)
  {
    forall n: nat, a: nat, b: nat | n < |rounds|
      ensures OvertakesAt(tables, rounds, c, n, a, b) <==> HeldBackAt(p, tables, rounds, c, n, a, b)
    {
      TurnOf(p, tables, rounds, n);
      OvertakesIff(p, Opening(tables[n], rounds[n]), rounds[n], c, a, b);
    }
  }

  // ----- a history out of order

  const POLICY := RetryPolicy(60.0, 5, 2.0)

  function Lone(added: seq<Record>, scene: Scene, now: real, k: nat, reply: Reply): Round {
    Round(added, scene, now, 100, {}, [k], _ => reply)
  }

  /** A round in which exactly the record at k is due, and is called. */
  lemma LoneTurn(p: RetryPolicy, rows: seq<Record>, added: seq<Record>, scene: Scene, now: real, k: nat, reply: Reply)
    requires AddsYounger(rows, added) && k < |rows + added|
    requires forall i :: 0 <= i < |rows + added| ==>
               (IsEligible(p, (rows + added)[i], now) <==> i == k) && !IsExhausted(p, (rows + added)[i], now)
    requires (rows + added)[k].consumer in scene.consumers && (rows + added)[k].event in scene.events
    requires reply.outcome == Returns || reply.outcome == Raises
    ensures var r, round := (rows + added)[k], Lone(added, scene, now, k, reply);
            && IsTurn(p, rows, round, (rows + added)[k := Settled(p, scene, Claimed(r, now), reply)])
            && HeardIn(Opening(rows, round), round, r.consumer) == [r.createdAt]
  {
    var opening, round := rows + added, Lone(added, scene, now, k, reply);
    LoneSelection(p, opening, round, k);
    assert FirstIndex([k], k) == 0;
    assert Passed(p, opening, round) == opening[k := Settled(p, scene, Claimed(opening[k], now), reply)];
    assert HeardFirst(opening, round, opening[k].consumer, 0) == [];
    assert IsHeard(opening, round, opening[k].consumer, 0);
  }

  lemma LoneSelection(p: RetryPolicy, rows: seq<Record>, round: Round, k: nat)
    requires k < |rows| && round.claimed == [k] && round.limit == 100 && round.filter == {}
    requires forall i :: 0 <= i < |rows| ==>
               (IsEligible(p, rows[i], round.now) <==> i == k) && !IsExhausted(p, rows[i], round.now)
    ensures Selects(p, rows, round)
  {
    assert RetiredAll(p, rows, round.now) == rows;
    assert Wanted({}, rows[k]);
  }

  function Served(c: ConsumerId, e: EventId, f: EventId): Scene {
    Scene({c}, {e, f})
  }

  /** The record of e after its call at 1 s raised at 2 s: FAILED, due at 4 s. */
  function FailedOnce(c: ConsumerId, e: EventId): Record {
    MarkedFailed(POLICY, Claimed(NewRecord(e, c, 0.0), 1.0), "consumer raised", 2.0, 2.0)
  }

  function DeliveredAtOnce(c: ConsumerId, f: EventId): Record {
    MarkedDelivered(Claimed(NewRecord(f, c, 3.0), 3.5), 3.5)
  }

  lemma OlderFails(c: ConsumerId, e: EventId, f: EventId) returns (round: Round)
    ensures IsTurn(POLICY, [], round, [FailedOnce(c, e)]) && HeardIn(Opening([], round), round, c) == [0.0]
  {
    var reply := Reply(Raises, 2.0, 2.0);
    round := Lone([NewRecord(e, c, 0.0)], Served(c, e, f), 1.0, 0, reply);
    LoneTurn(POLICY, [], [NewRecord(e, c, 0.0)], Served(c, e, f), 1.0, 0, reply);
  }

  lemma YoungerIsDelivered(c: ConsumerId, e: EventId, f: EventId) returns (round: Round)
    ensures IsTurn(POLICY, [FailedOnce(c, e)], round, [FailedOnce(c, e), DeliveredAtOnce(c, f)])
    ensures HeardIn(Opening([FailedOnce(c, e)], round), round, c) == [3.0]
  {
    var reply := Reply(Returns, 3.5, 3.5);
    assert Pow2(0) == 1;
    round := Lone([NewRecord(f, c, 3.0)], Served(c, e, f), 3.5, 1, reply);
    LoneTurn(POLICY, [FailedOnce(c, e)], [NewRecord(f, c, 3.0)], Served(c, e, f), 3.5, 1, reply);
  }

  lemma OlderIsDelivered(c: ConsumerId, e: EventId, f: EventId) returns (round: Round, last: Record)
    ensures IsTurn(POLICY, [FailedOnce(c, e), DeliveredAtOnce(c, f)], round, [last, DeliveredAtOnce(c, f)])
    ensures HeardIn(Opening([FailedOnce(c, e), DeliveredAtOnce(c, f)], round), round, c) == [0.0]
    ensures last.state == Delivered
  {
    var reply := Reply(Returns, 5.0, 5.0);
    assert Pow2(0) == 1;
    round, last := Lone([], Served(c, e, f), 5.0, 0, reply), MarkedDelivered(Claimed(FailedOnce(c, e), 5.0), 5.0);
    LoneTurn(POLICY, [FailedOnce(c, e), DeliveredAtOnce(c, f)], [], Served(c, e, f), 5.0, 0, reply);
  }

  /**
   * One consumer, one dispatcher: the older event raises, a younger one arrives and is delivered
   * while the older waits for its backoff, and then the older one is delivered.
   */
  lemma YoungerOvertakes(c: ConsumerId, e: EventId, f: EventId)
    returns (tables: seq<seq<Record>>, rounds: seq<Round>)
    ensures IsHistory(POLICY, tables, rounds) && |rounds| == 3 && tables[0] == []
    ensures AllDelivered(tables[3], c) && Heard(tables, rounds, c, 3) == [0.0, 3.0, 0.0]
  {
    var first := OlderFails(c, e, f);
    var second := YoungerIsDelivered(c, e, f);
    var third, last := OlderIsDelivered(c, e, f);
    rounds := [first, second, third];
    tables := [[], [FailedOnce(c, e)], [FailedOnce(c, e), DeliveredAtOnce(c, f)], [last, DeliveredAtOnce(c, f)]];
    ThreeRounds(POLICY, tables, rounds, c, 0.0, 3.0, 0.0);
  }

  lemma ThreeRounds(p: RetryPolicy, tables: seq<seq<Record>>, rounds: seq<Round>, c: ConsumerId,
                    x: real, y: real, z: real)
    requires |rounds| == 3 && |tables| == 4
    requires IsTurn(p, tables[0], rounds[0], tables[1]) && HeardIn(Opening(tables[0], rounds[0]), rounds[0], c) == [x]
    requires IsTurn(p, tables[1], rounds[1], tables[2]) && HeardIn(Opening(tables[1], rounds[1]), rounds[1], c) == [y]
    requires IsTurn(p, tables[2], rounds[2], tables[3]) && HeardIn(Opening(tables[2], rounds[2]), rounds[2], c) == [z]
    ensures IsHistory(p, tables, rounds) && Heard(tables, rounds, c, 3) == [x, y, z]
  {
    forall n | 0 <= n < 3 ensures IsTurnAt(p, tables, rounds, n) {
      assert n == 0 || n == 1 || n == 2;
    }
    HeardGrows(tables, rounds, c, 0, [], x);
    HeardGrows(tables, rounds, c, 1, [x], y);
    HeardGrows(tables, rounds, c, 2, [x, y], z);
  }

  lemma HeardGrows(tables: seq<seq<Record>>, rounds: seq<Round>, c: ConsumerId, n: nat, before: seq<real>, x: real)
    requires n < |rounds| < |tables| && Heard(tables, rounds, c, n) == before
    requires HeardIn(Opening(tables[n], rounds[n]), rounds[n], c) == [x]
    ensures Heard(tables, rounds, c, n + 1) == before + [x]
  {
  }
}
