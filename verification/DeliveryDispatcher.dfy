/**
 * The recovery pass of backend/app/event_delivery/delivery_dispatcher.py: claim what is
 * due, look the event up, call the consumer, write the outcome.
 */
module Dispatcher {
  import opened Common
  import opened Outbox

  /** How the i-th claimed record fares; Lost is a process that dies before it writes the outcome. */
  datatype Outcome = Returns | Raises | LookupRaises | Lost

  /** An outcome with the clock readings of the mark that follows. */
  datatype Reply = Reply(outcome: Outcome, now: real, later: real)

  datatype Call = Call(event: EventId, consumer: ConsumerId, ok: bool)

  /** The surroundings of a pass: who is registered, and which events the repository holds. */
  datatype Scene = Scene(consumers: set<ConsumerId>, events: set<EventId>)

  /** What is written for a claimed record; None when the process dies first. */
  function Verdict(scene: Scene, r: Record, reply: Reply): Option<Mark> {
    if r.consumer !in scene.consumers then Some(Return(reply.now))
    else if reply.outcome == LookupRaises then Some(Fail("event lookup failed", reply.now, reply.later))
    else if r.event !in scene.events then Some(Fail("canonical event not found", reply.now, reply.later))
    else match reply.outcome
      case Returns => Some(Deliver(reply.now))
      case Raises => Some(Fail("consumer raised", reply.now, reply.later))
      case _ => None
  }

  function Settled(p: RetryPolicy, scene: Scene, r: Record, reply: Reply): Record {
    match Verdict(scene, r, reply)
    case Some(mark) => Applied(p, r, mark)
    case None => r
  }

  /** The table once the verdict on `r`'s pair is written. */
  function MarkedBy(p: RetryPolicy, scene: Scene, rows: seq<Record>, r: Record, reply: Reply): seq<Record> {
    match Verdict(scene, r, reply)
    case Some(mark) => Marked(p, rows, r.event, r.consumer, mark)
    case None => rows
  }

  /** One row after a pass at `now` that claimed `claimed` and settled the first `done` of them. */
  function RowAfter(p: RetryPolicy, scene: Scene, r: Record, k: nat, now: real,
                    claimed: seq<nat>, replies: nat -> Reply, done: nat): Record
  {
    var retired, i := Retired(p, r, now), FirstIndex(claimed, k);
    if i == |claimed| then retired
    else if i < done then Settled(p, scene, Claimed(retired, now), replies(i))
    else Claimed(retired, now)
  }

  function AfterPass(p: RetryPolicy, scene: Scene, rows: seq<Record>, now: real,
                     claimed: seq<nat>, replies: nat -> Reply, done: nat): (next: seq<Record>)
    ensures |next| == |rows|
  {
    seq(|rows|, k requires 0 <= k < |rows| => RowAfter(p, scene, rows[k], k, now, claimed, replies, done))
  }

  /** The consumer is called once when it is registered and the event is looked up and stored. */
  function CallFor(scene: Scene, r: Record, reply: Reply): seq<Call> {
    if r.consumer in scene.consumers && r.event in scene.events && reply.outcome != LookupRaises
    then [Call(r.event, r.consumer, reply.outcome == Returns)] else []
  }

  /** The consumer calls of a pass, in order. */
  function CallsOf(scene: Scene, rows: seq<Record>, claimed: seq<nat>, replies: nat -> Reply): seq<Call>
    requires forall i :: 0 <= i < |claimed| ==> claimed[i] < |rows|
  {
    if claimed == [] then []
    else
      var n := |claimed| - 1;
      CallsOf(scene, rows, claimed[..n], replies) + CallFor(scene, rows[claimed[n]], replies(n))
  }

  /** `processed` counts the claimed records that were not put back. */
  function Processed(scene: Scene, rows: seq<Record>, claimed: seq<nat>): nat
    requires forall i :: 0 <= i < |claimed| ==> claimed[i] < |rows|
  {
    if claimed == [] then 0
    else
      Processed(scene, rows, claimed[..|claimed| - 1])
      + if rows[claimed[|claimed| - 1]].consumer in scene.consumers then 1 else 0
  }

  class DeliveryDispatcher {
    const outbox: OutboxRepository
    var consumers: set<ConsumerId>
    ghost var calls: seq<Call>

    constructor (outbox: OutboxRepository)
      ensures this.outbox == outbox && consumers == {} && calls == []
    {
      this.outbox, consumers, calls := outbox, {}, [];
    }

    method RegisterConsumer(c: ConsumerId)
      modifies this`consumers
      ensures consumers == old(consumers) + {c}
    {
      consumers := consumers + {c};
    }

    method UnregisterConsumer(c: ConsumerId) returns (present: bool)
      modifies this`consumers
      ensures present == (c in old(consumers)) && consumers == old(consumers) - {c}
    {
      present := c in consumers;
      consumers := consumers - {c};
    }

    /** One pass in which the process survives. Each claimed record gets exactly the mark its fate calls for. */
    method DeliverPending(now: real, limit: nat, filter: set<ConsumerId>, events: set<EventId>, replies: nat -> Reply)
      returns (processed: nat, ghost claimed: seq<nat>)
      requires UniquePairs(outbox.rows)
      requires forall i :: replies(i).outcome != Lost
      modifies this`calls, outbox
      ensures UniquePairs(outbox.rows)
      ensures IsSelection(outbox.policy, RetiredAll(outbox.policy, old(outbox.rows), now), now, limit, filter, claimed)
      ensures outbox.rows == AfterPass(outbox.policy, Scene(consumers, events), old(outbox.rows), now, claimed,
                                       replies, |claimed|)
      ensures calls == old(calls) + CallsOf(Scene(consumers, events), old(outbox.rows), claimed, replies)
      ensures processed == Processed(Scene(consumers, events), old(outbox.rows), claimed)
    {
      ghost var before := outbox.rows;
      var records := outbox.ClaimPending(now, limit, filter);
      claimed := records;
      ClaimOpensPass(outbox.policy, Scene(consumers, events), before, now, claimed, replies);
      AfterPassKeepsPairs(outbox.policy, Scene(consumers, events), before, now, claimed, replies, |claimed|);
      processed := DeliverClaimed(records, events, replies, before, now);
    }

    /** The loop over the claimed records; `before` is the table the pass at `now` started from. */
    method DeliverClaimed(claimed: seq<nat>, events: set<EventId>, replies: nat -> Reply, ghost before: seq<Record>,
                          ghost now: real)
      returns (processed: nat)
      requires UniquePairs(before) && Distinct(claimed) && forall i :: 0 <= i < |claimed| ==> claimed[i] < |before|
      requires forall i :: replies(i).outcome != Lost
      requires outbox.rows == AfterPass(outbox.policy, Scene(consumers, events), before, now, claimed, replies, 0)
      modifies this`calls, outbox
      ensures outbox.rows == AfterPass(outbox.policy, Scene(consumers, events), before, now, claimed,
                                       replies, |claimed|)
      ensures calls == old(calls) + CallsOf(Scene(consumers, events), before, claimed, replies)
      ensures processed == Processed(Scene(consumers, events), before, claimed)
    {
      ghost var p, scene := outbox.policy, Scene(consumers, events);
      processed := 0;
      for i := 0 to |claimed|
        invariant outbox.rows == AfterPass(p, scene, before, now, claimed, replies, i)
        invariant calls == old(calls) + CallsOf(scene, before, claimed[..i], replies)
        invariant processed == Processed(scene, before, claimed[..i])
      {
        var counted := DeliverNext(claimed, i, events, replies(i), before, now, replies);
        if counted {
          processed := processed + 1;
        }
      }
      assert claimed[..|claimed|] == claimed;
    }

    /** The body of the loop: the i-th claimed record, from the table that the first i outcomes left. */
    method DeliverNext(claimed: seq<nat>, i: nat, events: set<EventId>, reply: Reply,
                       ghost before: seq<Record>, ghost now: real, ghost replies: nat -> Reply)
      returns (counted: bool)
      requires UniquePairs(before) && Distinct(claimed) && forall j :: 0 <= j < |claimed| ==> claimed[j] < |before|
      requires i < |claimed| && reply == replies(i) && reply.outcome != Lost
      requires outbox.rows == AfterPass(outbox.policy, Scene(consumers, events), before, now, claimed, replies, i)
      modifies this`calls, outbox
      ensures outbox.rows == AfterPass(outbox.policy, Scene(consumers, events), before, now, claimed, replies, i + 1)
      ensures old(calls) <= calls
      ensures CallsOf(Scene(consumers, events), before, claimed[..i + 1], replies)
              == CallsOf(Scene(consumers, events), before, claimed[..i], replies) + calls[|old(calls)|..]
      ensures Processed(Scene(consumers, events), before, claimed[..i + 1])
              == Processed(Scene(consumers, events), before, claimed[..i]) + if counted then 1 else 0
    {
      PassGrows(outbox.policy, Scene(consumers, events), before, now, claimed, replies, i);
      var record := outbox.rows[claimed[i]];
      counted := DeliverOne(record, events, reply);
    }

    /** What happens to one record. */
    method DeliverOne(record: Record, events: set<EventId>, reply: Reply) returns (counted: bool)
      requires reply.outcome != Lost
      modifies this`calls, outbox
      ensures counted == (record.consumer in consumers)
      ensures calls == old(calls) + CallFor(Scene(consumers, events), record, reply)
      ensures outbox.rows == MarkedBy(outbox.policy, Scene(consumers, events), old(outbox.rows), record, reply)
    {
      if record.consumer !in consumers {
        outbox.MarkPending(record.event, record.consumer, reply.now);
        return false;
      }
      if reply.outcome == LookupRaises {
        outbox.MarkFailed(record.event, record.consumer, "event lookup failed", reply.now, reply.later);
        return true;
      }
      if record.event !in events {
        outbox.MarkFailed(record.event, record.consumer, "canonical event not found", reply.now, reply.later);
        return true;
      }
      calls := calls + [Call(record.event, record.consumer, reply.outcome == Returns)];
      if reply.outcome == Raises {
        outbox.MarkFailed(record.event, record.consumer, "consumer raised", reply.now, reply.later);
      } else {
        outbox.MarkDelivered(record.event, record.consumer, reply.now);
      }
      return true;
    }
  }

  /** The five fates of a claimed record: the state it gets, the error it carries, and the call it costs. */
  lemma FateOfClaimed(p: RetryPolicy, scene: Scene, r: Record, reply: Reply)
    requires r.state == InFlight && reply.outcome != Lost
    ensures var after, calls := Settled(p, scene, r, reply), CallFor(scene, r, reply);
            var refused := if r.attempts >= p.maxAttempts then DeadLetter else Failed;
            if r.consumer !in scene.consumers then
              after.state == Pending && after.attempts == r.attempts && after.lastError == r.lastError && calls == []
            else if reply.outcome == LookupRaises then
              after.state == refused && after.lastError == Some("event lookup failed") && calls == []
            else if r.event !in scene.events then
              after.state == refused && after.lastError == Some("canonical event not found") && calls == []
            else if reply.outcome == Returns then
              after.state == Delivered && after.lastError == None && calls == [Call(r.event, r.consumer, true)]
            else
              after.state == refused && after.lastError == Some("consumer raised")
              && calls == [Call(r.event, r.consumer, false)]
  {
  }

  /** The claimed records whose consumer is not registered. */
  function HandedBack(scene: Scene, rows: seq<Record>, claimed: seq<nat>): nat
    requires forall i :: 0 <= i < |claimed| ==> claimed[i] < |rows|
  {
    if claimed == [] then 0
    else
      HandedBack(scene, rows, claimed[..|claimed| - 1])
      + if rows[claimed[|claimed| - 1]].consumer !in scene.consumers then 1 else 0
  }

  /** The pass counts every claimed record but those it puts back. */
  lemma {:induction false} ProcessedIsTheRest(scene: Scene, rows: seq<Record>, claimed: seq<nat>)
    requires forall i :: 0 <= i < |claimed| ==> claimed[i] < |rows|
    ensures Processed(scene, rows, claimed) + HandedBack(scene, rows, claimed) == |claimed|
  {
    if claimed != [] {
      ProcessedIsTheRest(scene, rows, claimed[..|claimed| - 1]);
    }
  }

  /** Retiring and claiming is the pass before its first outcome. */
  lemma ClaimOpensPass(p: RetryPolicy, scene: Scene, rows: seq<Record>, now: real, claimed: seq<nat>,
                       replies: nat -> Reply)
    ensures AfterPass(p, scene, rows, now, claimed, replies, 0) == ClaimedAll(RetiredAll(p, rows, now), claimed, now)
  {
  }

  lemma RowAfterKeepsPair(p: RetryPolicy, scene: Scene, r: Record, k: nat, now: real,
                          claimed: seq<nat>, replies: nat -> Reply, done: nat)
    ensures var after := RowAfter(p, scene, r, k, now, claimed, replies, done);
            after.event == r.event && after.consumer == r.consumer && after.createdAt == r.createdAt
  {
  }

  lemma AfterPassKeepsPairs(p: RetryPolicy, scene: Scene, rows: seq<Record>, now: real,
                            claimed: seq<nat>, replies: nat -> Reply, done: nat)
    requires UniquePairs(rows)
    ensures UniquePairs(AfterPass(p, scene, rows, now, claimed, replies, done))
    ensures forall k :: 0 <= k < |rows| ==>
              var r := AfterPass(p, scene, rows, now, claimed, replies, done)[k];
              r.event == rows[k].event && r.consumer == rows[k].consumer && r.createdAt == rows[k].createdAt
  {
    var after := AfterPass(p, scene, rows, now, claimed, replies, done);
    forall k | 0 <= k < |rows|
      ensures after[k].event == rows[k].event && after[k].consumer == rows[k].consumer
              && after[k].createdAt == rows[k].createdAt
    {
      RowAfterKeepsPair(p, scene, rows[k], k, now, claimed, replies, done);
    }
  }

  /** Marking the i-th claimed record's pair settles exactly that record. */
  lemma PassStep(p: RetryPolicy, scene: Scene, rows: seq<Record>, now: real, claimed: seq<nat>,
                 replies: nat -> Reply, i: nat)
    requires UniquePairs(rows) && Distinct(claimed) && i < |claimed| && claimed[i] < |rows|
    ensures var current := AfterPass(p, scene, rows, now, claimed, replies, i);
            var r := current[claimed[i]];
            && r == Claimed(Retired(p, rows[claimed[i]], now), now)
            && AfterPass(p, scene, rows, now, claimed, replies, i + 1) == MarkedBy(p, scene, current, r, replies(i))
  {
    var current := AfterPass(p, scene, rows, now, claimed, replies, i);
    var next := AfterPass(p, scene, rows, now, claimed, replies, i + 1);
    var k := claimed[i];
    assert FirstIndex(claimed, k) == i;
    AfterPassKeepsPairs(p, scene, rows, now, claimed, replies, i);
    RecordIndexIsUnique(current, current[k].event, current[k].consumer, k);
    forall j | 0 <= j < |rows| && j != k ensures next[j] == current[j] {
      assert FirstIndex(claimed, j) != i;
    }
  }

  /** Delivering the i-th claimed record extends the pass's table, its calls and its count by one. */
  lemma PassGrows(p: RetryPolicy, scene: Scene, rows: seq<Record>, now: real, claimed: seq<nat>,
                  replies: nat -> Reply, i: nat)
    requires UniquePairs(rows) && Distinct(claimed) && i < |claimed|
    requires forall j :: 0 <= j < |claimed| ==> claimed[j] < |rows|
    ensures var current := AfterPass(p, scene, rows, now, claimed, replies, i);
            var r := current[claimed[i]];
            && AfterPass(p, scene, rows, now, claimed, replies, i + 1) == MarkedBy(p, scene, current, r, replies(i))
            && CallsOf(scene, rows, claimed[..i + 1], replies)
               == CallsOf(scene, rows, claimed[..i], replies) + CallFor(scene, r, replies(i))
            && Processed(scene, rows, claimed[..i + 1])
               == Processed(scene, rows, claimed[..i]) + if r.consumer in scene.consumers then 1 else 0
  {
    PassStep(p, scene, rows, now, claimed, replies, i);
    AfterPassKeepsPairs(p, scene, rows, now, claimed, replies, i);
    assert claimed[..i + 1][..i] == claimed[..i];
  }
}
