/**
 * The durable path of backend/app/event_pipeline/event_pipeline.py: middleware and filters,
 * the atomic commit, the hot path over the configured consumers, then a recovery pass.
 */
module Pipeline {
  import opened Common
  import opened Outbox
  import opened Dispatcher
  import opened DeliveryProtocol
  import opened DeliverySafety
  import Lifecycle

  type Event = Lifecycle.Event

  /** Middleware may drop the event; a later stage is then called with nothing. */
  type Middleware = Option<Event> -> Option<Event>

  datatype PipelineError = DuplicateDelivery

  function Piped(stages: seq<Middleware>, e: Option<Event>): Option<Event> {
    if stages == [] then e else stages[|stages| - 1](Piped(stages[..|stages| - 1], e))
  }

  predicate Passes(filters: seq<Event -> bool>, e: Event) {
    forall i :: 0 <= i < |filters| ==> filters[i](e)
  }

  /** What is left of the event when it reaches the commit. */
  function Admitted(before: seq<Middleware>, filters: seq<Event -> bool>, after: seq<Middleware>, event: Event):
      Option<Event>
  {
    var e := Piped(before, Some(event));
    if e.None? || !Passes(filters, e.value) then None else Piped(after, e)
  }

  /** The stage added first runs first. */
  lemma {:induction false} FirstStageFirst(f: Middleware, stages: seq<Middleware>, e: Option<Event>)
    ensures Piped([f] + stages, e) == Piped(stages, f(e))
  {
    var all := [f] + stages;
    if stages == [] {
      assert all[..0] == [];
    } else {
      var n := |stages| - 1;
      FirstStageFirst(f, stages[..n], e);
      assert all[..n + 1] == [f] + stages[..n];
    }
  }

  ghost predicate IsRefused(filters: seq<Event -> bool>, e: Event) {
    exists i :: 0 <= i < |filters| && !filters[i](e)
  }

  /**
   * An event is dropped exactly when the stages before the filters drop it, some filter refuses
   * what they made of it, or the stages after drop that; otherwise it is what all stages made of it.
   */
  lemma DroppedIff(before: seq<Middleware>, filters: seq<Event -> bool>, after: seq<Middleware>, event: Event)
    ensures var e, admitted := Piped(before, Some(event)), Admitted(before, filters, after, event);
            && (admitted.None? <==> e.None? || IsRefused(filters, e.value) || Piped(after, e).None?)
            && (admitted.Some? ==> admitted == Piped(after, e))
    ensures before == [] && after == [] ==>
              Admitted(before, filters, after, event) == if IsRefused(filters, event) then None else Some(event)
  {
  }

  predicate NoRepeats(s: seq<ConsumerId>)
    ensures NoRepeats(s) <==> Distinct(s)
  {
    forall i, j :: 0 <= i < j < |s| ==> s[i] != s[j]
  }

  function Committed(rows: seq<Record>, e: EventId, consumers: seq<ConsumerId>, now: real): seq<Record> {
    rows + NewRecords(e, Missing(rows, e, consumers), now)
  }

  function HotMark(reply: Reply): Mark {
    if reply.outcome == Returns then Deliver(reply.now) else Fail("consumer raised", reply.now, reply.later)
  }

  /** The table once the registered ones among the consumers were called and marked, in order. */
  function HotPass(p: RetryPolicy, registered: set<ConsumerId>, rows: seq<Record>, e: EventId,
                   consumers: seq<ConsumerId>, replies: nat -> Reply): (next: seq<Record>)
    ensures |next| == |rows|
  {
    if consumers == [] then rows
    else
      var n := |consumers| - 1;
      var before := HotPass(p, registered, rows, e, consumers[..n], replies);
      if consumers[n] in registered then Marked(p, before, e, consumers[n], HotMark(replies(n))) else before
  }

  function HotCalls(registered: set<ConsumerId>, e: EventId, consumers: seq<ConsumerId>,
                    replies: nat -> Reply): seq<Call>
  {
    if consumers == [] then []
    else
      var n := |consumers| - 1;
      HotCalls(registered, e, consumers[..n], replies)
      + if consumers[n] in registered then [Call(e, consumers[n], replies(n).outcome == Returns)] else []
  }

  lemma CommittedKeepsUnique(rows: seq<Record>, e: EventId, consumers: seq<ConsumerId>, now: real)
    requires UniquePairs(rows) && Distinct(Missing(rows, e, consumers))
    ensures UniquePairs(Committed(rows, e, consumers, now))
  {
    MissingFacts(rows, e, consumers);
    AppendingKeepsUnique(rows, NewRecords(e, Missing(rows, e, consumers), now));
  }

  lemma MarkedKeepsPairs(p: RetryPolicy, rows: seq<Record>, e: EventId, c: ConsumerId, m: Mark)
    ensures forall k :: 0 <= k < |rows| ==> SameIdentity(rows[k], Marked(p, rows, e, c, m)[k])
  {
  }

  lemma {:induction false} HotPassKeepsPairs(p: RetryPolicy, registered: set<ConsumerId>, rows: seq<Record>, e: EventId,
                                             consumers: seq<ConsumerId>, replies: nat -> Reply)
    ensures forall k :: 0 <= k < |rows| ==>
            SameIdentity(rows[k], HotPass(p, registered, rows, e, consumers, replies)[k])
  {
    if consumers != [] {
      var n := |consumers| - 1;
      HotPassKeepsPairs(p, registered, rows, e, consumers[..n], replies);
      var before := HotPass(p, registered, rows, e, consumers[..n], replies);
      MarkedKeepsPairs(p, before, e, consumers[n], HotMark(replies(n)));
    }
  }

  lemma IdentityKeepsUnique(rows: seq<Record>, next: seq<Record>)
    requires UniquePairs(rows) && |next| == |rows| && forall k :: 0 <= k < |rows| ==> SameIdentity(rows[k], next[k])
    ensures UniquePairs(next)
  {
    forall i, j | 0 <= i < j < |next| ensures !next[i].IsFor(next[j].event, next[j].consumer) {
      assert SameIdentity(rows[i], next[i]) && SameIdentity(rows[j], next[j]);
    }
  }

  class EventPipeline {
    const dispatcher: DeliveryDispatcher
    const projection: Lifecycle.CompositeProjection
    var before: seq<Middleware>
    var filters: seq<Event -> bool>
    var after: seq<Middleware>
    var consumerIds: seq<ConsumerId>
    var events: set<EventId>

    constructor (dispatcher: DeliveryDispatcher, projection: Lifecycle.CompositeProjection,
                 consumerIds: seq<ConsumerId>)
      ensures this.dispatcher == dispatcher && this.projection == projection && this.consumerIds == consumerIds
      ensures before == [] && filters == [] && after == [] && events == {}
    {
      this.dispatcher, this.projection, this.consumerIds := dispatcher, projection, consumerIds;
      before, filters, after, events := [], [], [], {};
    }

    method Run(stages: seq<Middleware>, event: Option<Event>) returns (e: Option<Event>)
      ensures e == Piped(stages, event)
    {
      e := event;
      for i := 0 to |stages|
        invariant e == Piped(stages[..i], event)
      {
        assert stages[..i + 1][..i] == stages[..i];
        e := stages[i](e);
      }
      assert stages[..|stages|] == stages;
    }

    method Filtered(event: Event) returns (kept: bool)
      ensures kept == Passes(filters, event)
    {
      for i := 0 to |filters|
        invariant forall j :: 0 <= j < i ==> filters[j](event)
      {
        if !filters[i](event) {
          return false;
        }
      }
      return true;
    }

    method Admit(event: Event) returns (e: Option<Event>)
      ensures e == Admitted(before, filters, after, event)
      ensures e.None? <==>
              var piped := Piped(before, Some(event));
              piped.None? || IsRefused(filters, piped.value) || Piped(after, piped).None?
      ensures e.Some? ==> e == Piped(after, Piped(before, Some(event)))
    {
      DroppedIff(before, filters, after, event);
      e := Run(before, Some(event));
      if e.None? {
        return;
      }
      var kept := Filtered(e.value);
      if !kept {
        return None;
      }
      e := Run(after, e);
    }

    /** Event and delivery records together, or neither. */
    method Commit(e: EventId, now: real) returns (ok: bool)
      requires UniquePairs(dispatcher.outbox.rows)
      modifies this`events, dispatcher.outbox
      ensures ok <==> Distinct(Missing(old(dispatcher.outbox.rows), e, consumerIds))
      ensures ok ==> events == old(events) + {e}
      ensures ok ==> dispatcher.outbox.rows == Committed(old(dispatcher.outbox.rows), e, consumerIds, now)
      ensures !ok ==> events == old(events) && dispatcher.outbox.rows == old(dispatcher.outbox.rows)
      ensures UniquePairs(dispatcher.outbox.rows)
    {
      var missing := Missing(dispatcher.outbox.rows, e, consumerIds);
      ok := NoRepeats(missing);
      if ok {
        CommittedKeepsUnique(dispatcher.outbox.rows, e, consumerIds, now);
        events := events + {e};
        dispatcher.outbox.rows := dispatcher.outbox.rows + NewRecords(e, missing, now);
      }
    }

    method RunHotPath(e: EventId, replies: nat -> Reply)
      modifies dispatcher`calls, dispatcher.outbox
      ensures dispatcher.outbox.rows
              == HotPass(dispatcher.outbox.policy, dispatcher.consumers, old(dispatcher.outbox.rows), e,
                         consumerIds, replies)
      ensures dispatcher.calls == old(dispatcher.calls) + HotCalls(dispatcher.consumers, e, consumerIds, replies)
    {
      var outbox := dispatcher.outbox;
      for i := 0 to |consumerIds|
        invariant outbox.rows
                  == HotPass(outbox.policy, dispatcher.consumers, old(outbox.rows), e, consumerIds[..i], replies)
        invariant dispatcher.calls
                  == old(dispatcher.calls) + HotCalls(dispatcher.consumers, e, consumerIds[..i], replies)
      {
        assert consumerIds[..i + 1][..i] == consumerIds[..i];
        var c := consumerIds[i];
        if c in dispatcher.consumers {
          dispatcher.calls := dispatcher.calls + [Call(e, c, replies(i).outcome == Returns)];
          if replies(i).outcome == Returns {
            outbox.MarkDelivered(e, c, replies(i).now);
          } else {
            outbox.MarkFailed(e, c, "consumer raised", replies(i).now, replies(i).later);
          }
        }
      }
      assert consumerIds[..|consumerIds|] == consumerIds;
    }

    /**
     * Nothing happens to a dropped event; an admitted one is committed, projected whether or not
     * the projection raises, delivered hot, then a recovery pass runs.
     */
    method Process(event: Event, now: real, hotReplies: nat -> Reply, passNow: real, replies: nat -> Reply)
      returns (r: Result<bool, PipelineError>, ghost claimed: seq<nat>)
      requires UniquePairs(dispatcher.outbox.rows)
      requires forall i :: replies(i).outcome != Lost
      modifies this`events, dispatcher`calls, dispatcher.outbox, projection.manager.repository, projection.relations
      ensures UniquePairs(dispatcher.outbox.rows)
      ensures r == (match Admitted(before, filters, after, event)
                    case None => Ok(false)
                    case Some(e) =>
                      if Distinct(Missing(old(dispatcher.outbox.rows), e.id, consumerIds)) then Ok(true)
                      else Err(DuplicateDelivery))
      ensures before == [] && after == [] ==> (r == Ok(false) <==> IsRefused(filters, event))
      ensures projection.Stored()
              == if r == Ok(true)
                 then Lifecycle.Projected(old(projection.Stored()), Admitted(before, filters, after, event).value)
                 else old(projection.Stored())
      ensures r != Ok(true) ==>
                && events == old(events)
                && dispatcher.outbox.rows == old(dispatcher.outbox.rows) && dispatcher.calls == old(dispatcher.calls)
      ensures r == Ok(true) ==>
                var e := Admitted(before, filters, after, event).value.id;
                var p, registered := dispatcher.outbox.policy, dispatcher.consumers;
                var hot := HotPass(p, registered, Committed(old(dispatcher.outbox.rows), e, consumerIds, now), e,
                                   consumerIds, hotReplies);
                && events == old(events) + {e}
                && IsSelection(p, RetiredAll(p, hot, passNow), passNow, 100, {}, claimed)
                && dispatcher.outbox.rows
                    == AfterPass(p, Scene(registered, events), hot, passNow, claimed, replies, |claimed|)
                && dispatcher.calls == old(dispatcher.calls) + HotCalls(registered, e, consumerIds, hotReplies)
                                       + CallsOf(Scene(registered, events), hot, claimed, replies)
    {
      claimed := [];
      DroppedIff(before, filters, after, event);
      var admitted := Admit(event);
      if admitted.None? {
        return Ok(false), [];
      }
      var e := admitted.value.id;
      var ok := Commit(e, now);
      if !ok {
        return Err(DuplicateDelivery), [];
      }
      ghost var committed := dispatcher.outbox.rows;
      var raised := projection.Project(admitted.value);
      RunHotPath(e, hotReplies);
      HotPassKeepsPairs(dispatcher.outbox.policy, dispatcher.consumers, committed, e, consumerIds, hotReplies);
      IdentityKeepsUnique(committed, dispatcher.outbox.rows);
      var processed;
      processed, claimed := dispatcher.DeliverPending(passNow, 100, {}, events, replies);
      r := Ok(true);
    }
  }

  // ----- what the hot path leaves for the recovery pass

  /** The hot path settles exactly the records of its registered consumers, each by its own outcome. */
  lemma {:induction false} HotPassSettles(p: RetryPolicy, registered: set<ConsumerId>, rows: seq<Record>, e: EventId,
                                          consumers: seq<ConsumerId>, replies: nat -> Reply, k: nat)
    requires UniquePairs(rows) && k < |rows| && Distinct(consumers)
    ensures var after := HotPass(p, registered, rows, e, consumers, replies)[k];
            && (forall j: nat :: j < |consumers| && rows[k].IsFor(e, consumers[j]) && consumers[j] in registered ==>
                  after == Applied(p, rows[k], HotMark(replies(j))))
            && ((forall j: nat :: j < |consumers| && consumers[j] in registered ==> !rows[k].IsFor(e, consumers[j]))
                ==> after == rows[k])
  {
    if consumers != [] {
      var n := |consumers| - 1;
      var before := HotPass(p, registered, rows, e, consumers[..n], replies);
      HotPassSettles(p, registered, rows, e, consumers[..n], replies, k);
      HotPassKeepsPairs(p, registered, rows, e, consumers[..n], replies);
      IdentityKeepsUnique(rows, before);
      LastMark(p, registered, before, e, consumers[n], HotMark(replies(n)), k);
    }
  }

  lemma LastMark(p: RetryPolicy, registered: set<ConsumerId>, rows: seq<Record>, e: EventId, c: ConsumerId,
                 m: Mark, k: nat)
    requires UniquePairs(rows) && k < |rows|
    ensures Marked(p, rows, e, c, m)[k] == if rows[k].IsFor(e, c) then Applied(p, rows[k], m) else rows[k]
  {
    var at := RecordIndex(rows, e, c);
    if rows[k].IsFor(e, c) {
      RecordIndexIsUnique(rows, e, c, k);
    }
  }

  /** The consumer raised, attempts are left, and the backoff counted from the failure is over. */
  predicate DueAgain(p: RetryPolicy, r: Record, reply: Reply, passNow: real) {
    && reply.outcome != Returns
    && r.attempts < p.maxAttempts
    && reply.later + BackoffDelay(p, r.attempts) <= passNow
  }

  /** A record the hot path has just marked is claimable iff it is due again. */
  lemma HotMarkedIsEligibleIff(p: RetryPolicy, r: Record, reply: Reply, passNow: real)
    ensures var after := Retired(p, Applied(p, r, HotMark(reply)), passNow);
            IsEligible(p, after, passNow) <==> DueAgain(p, r, reply, passNow)
  {
  }

  /**
   * Which records of its own hot path the recovery pass of the same run takes up, fresh or
   * committed before: none but those due again, and each of those unless the limit is reached.
   */
  lemma RecoveryRepeatsOnlyDueFailures(p: RetryPolicy, registered: set<ConsumerId>, rows: seq<Record>, e: EventId,
                                       consumers: seq<ConsumerId>, replies: nat -> Reply, j: nat, k: nat, passNow: real,
                                       claimed: seq<nat>)
    requires UniquePairs(rows) && Distinct(consumers)
    requires j < |consumers| && consumers[j] in registered
    requires k < |rows| && rows[k].IsFor(e, consumers[j])
    requires var hot := HotPass(p, registered, rows, e, consumers, replies);
             IsSelection(p, RetiredAll(p, hot, passNow), passNow, 100, {}, claimed)
    ensures k in claimed ==> DueAgain(p, rows[k], replies(j), passNow)
    ensures DueAgain(p, rows[k], replies(j), passNow) && |claimed| < 100 ==> k in claimed
  {
    var hot := HotPass(p, registered, rows, e, consumers, replies);
    HotPassSettles(p, registered, rows, e, consumers, replies, k);
    assert hot[k] == Applied(p, rows[k], HotMark(replies(j)));
    HotMarkedIsEligibleIff(p, rows[k], replies(j), passNow);
    assert RetiredAll(p, hot, passNow)[k] == Retired(p, hot[k], passNow);
  }

  lemma OnlyRowOnce(claimed: seq<nat>)
    requires Distinct(claimed) && 0 in claimed && forall i :: 0 <= i < |claimed| ==> claimed[i] < 1
    ensures claimed == [0]
  {
    OnePosition(claimed, 0, |claimed| - 1);
  }

  lemma FewPositions(claimed: seq<nat>)
    requires Distinct(claimed) && forall i :: 0 <= i < |claimed| ==> claimed[i] < 1
    ensures |claimed| <= 1
  {
    if |claimed| > 1 {
      OnePosition(claimed, 0, 1);
    }
  }

  lemma OnePosition(claimed: seq<nat>, i: nat, j: nat)
    requires Distinct(claimed) && i < |claimed| && j < |claimed| && claimed[i] == claimed[j]
    ensures i == j
  {
    var first, second := if i < j then i else j, if i < j then j else i;
    assert claimed[first] == claimed[second];
  }

  /** A consumer that raises at 1 s with a base of 2 s is called a second time by a pass at 3 s. */
  lemma RedeliveredInTheSameRun(e: EventId, c: ConsumerId, claimed: seq<nat>)
    requires var p, rows := RetryPolicy(60.0, 5, 2.0), [NewRecord(e, c, 0.0)];
             var hot := HotPass(p, {c}, rows, e, [c], _ => Reply(Raises, 1.0, 1.0));
             IsSelection(p, RetiredAll(p, hot, 3.0), 3.0, 100, {}, claimed)
    ensures claimed == [0]
    ensures HotCalls({c}, e, [c], _ => Reply(Raises, 1.0, 1.0)) == [Call(e, c, false)]
    ensures CallsOf(Scene({c}, {e}), [NewRecord(e, c, 0.0)], claimed, _ => Reply(Returns, 3.0, 3.0))
            == [Call(e, c, true)]
  {
    var p, rows := RetryPolicy(60.0, 5, 2.0), [NewRecord(e, c, 0.0)];
    RecoveryRepeatsOnlyDueFailures(p, {c}, rows, e, [c], _ => Reply(Raises, 1.0, 1.0), 0, 0, 3.0, claimed);
    assert Pow2(0) == 1;
    assert DueAgain(p, rows[0], Reply(Raises, 1.0, 1.0), 3.0);
    FewPositions(claimed);
    OnlyRowOnce(claimed);
    assert claimed[..0] == [] && [c][..0] == [];
  }
}
