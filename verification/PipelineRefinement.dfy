/**
 * A whole pipeline run is one of the runs of the interleaved protocol: commit, hot path and
 * recovery pass of one process, with the same table and exactly its calls in the log.
 */
module PipelineRefinement {
  import opened Common
  import opened Outbox
  import opened Dispatcher
  import opened DeliveryProtocol
  import opened DeliverySafety
  import opened DeliveryRuns
  import opened DeliveryRefinement
  import opened Pipeline

  // ----- the commit

  ghost predicate MayCommit(s: System, i: nat, e: EventId, consumers: seq<ConsumerId>, now: real) {
    && i < |s.procs| && IsFree(s.procs[i])
    && |s.tallies| == |s.rows| && UniquePairs(s.rows) && now <= s.clock
    && Distinct(Missing(s.rows, e, consumers))
  }

  lemma CommitStep(p: RetryPolicy, s: System, i: nat, e: EventId, consumers: seq<ConsumerId>, now: real)
    returns (t: System)
    requires MayCommit(s, i, e, consumers, now)
    ensures At(p, s, t, {i}, i, Delivering(HotRows(t.rows, e, consumers), true))
    ensures t.rows == Committed(s.rows, e, consumers, now) && t.events == s.events + {e} && t.log == s.log
  {
    var step := Commit(e, consumers, now);
    ReachesItself(p, s, {i});
    ReachesNext(p, s, s, i, step, {i});
    t := Next(p, s, By(i, step));
    CommitLeavesRows(p, s, i, step);
  }

  lemma CommitLeavesRows(p: RetryPolicy, s: System, i: nat, step: Step)
    requires |s.tallies| == |s.rows| && Enabled(p, s, By(i, step)) && step.Commit?
    ensures Next(p, s, By(i, step)).rows == Grown(s, By(i, step))
  {
    var a := By(i, step);
    forall k | 0 <= k < |Grown(s, a)| ensures Next(p, s, a).rows[k] == Grown(s, a)[k] {
      NextRow(p, s, a, k);
    }
  }

  // ----- the hot path

  ghost predicate HotReady(t: System, i: nat, e: EventId, c: ConsumerId, todo: seq<nat>, reply: Reply) {
    && todo != [] && UniquePairs(t.rows) && todo[0] < |t.rows| && t.rows[todo[0]].IsFor(e, c)
    && reply.now <= t.clock && reply.later <= t.clock
  }

  /** A registered consumer is called and its record marked. */
  lemma HotCall(p: RetryPolicy, s: System, t: System, i: nat, e: EventId, c: ConsumerId, todo: seq<nat>, reply: Reply)
    returns (u: System)
    requires At(p, s, t, {i}, i, Delivering(todo, true)) && HotReady(t, i, e, c, todo, reply)
    ensures At(p, s, u, {i}, i, Delivering(todo[1..], true)) && SameElsewhere(t, u, i)
    ensures u.rows == Marked(p, t.rows, e, c, HotMark(reply))
    ensures u.log == t.log + EntriesOf([Call(e, c, reply.outcome == Returns)], true)
  {
    var ok := reply.outcome == Returns;
    var returned := CallStep(p, s, t, {i}, i, todo, true, ok);
    u := WriteOutcome(p, s, returned, {i}, i, todo[0], todo[1..], true, ok, reply.now, reply.later);
    SameElsewhereTwice(t, returned, u, i);
    EntriesOfOne(Call(e, c, ok), true);
  }

  /** An unregistered one is passed over. */
  lemma HotSkip(p: RetryPolicy, s: System, t: System, i: nat, todo: seq<nat>) returns (u: System)
    requires At(p, s, t, {i}, i, Delivering(todo, true)) && todo != []
    ensures At(p, s, u, {i}, i, Delivering(todo[1..], true)) && SameElsewhere(t, u, i)
    ensures u.rows == t.rows && u.log == t.log
  {
    PlainStep(p, s, t, {i}, i, Skip);
    u := Next(p, t, By(i, Skip));
    assert u.rows == t.rows;
  }

  /** Where the hot path stands after its first j consumers. */
  ghost predicate HotAt(p: RetryPolicy, s: System, committed: System, t: System, i: nat, registered: set<ConsumerId>,
                        e: EventId, consumers: seq<ConsumerId>, replies: nat -> Reply, j: nat)
    requires j <= |consumers|
  {
    && At(p, s, t, {i}, i, Delivering(HotRows(committed.rows, e, consumers)[j..], true))
    && SameElsewhere(committed, t, i)
    && t.rows == HotPass(p, registered, committed.rows, e, consumers[..j], replies)
    && t.log == committed.log + EntriesOf(HotCalls(registered, e, consumers[..j], replies), true)
  }

  lemma HotNext(p: RetryPolicy, s: System, committed: System, t: System, i: nat, registered: set<ConsumerId>,
                e: EventId, consumers: seq<ConsumerId>, replies: nat -> Reply, j: nat)
    returns (u: System)
    requires j < |consumers| && HotAt(p, s, committed, t, i, registered, e, consumers, replies, j)
    requires HotReady(t, i, e, consumers[j], HotRows(committed.rows, e, consumers)[j..], replies(j))
    ensures HotAt(p, s, committed, u, i, registered, e, consumers, replies, j + 1)
  {
    var todo, c := HotRows(committed.rows, e, consumers)[j..], consumers[j];
    HeadOfSlice(HotRows(committed.rows, e, consumers), j);
    HotGrows(p, registered, committed.rows, e, consumers, replies, j);
    if c in registered {
      u := HotCall(p, s, t, i, e, c, todo, replies(j));
      EntriesInTurn(committed.log, EntriesOf(HotCalls(registered, e, consumers[..j], replies), true),
                    EntriesOf([Call(e, c, replies(j).outcome == Returns)], true));
    } else {
      u := HotSkip(p, s, t, i, todo);
    }
    SameElsewhereTwice(committed, t, u, i);
  }

  lemma HotGrows(p: RetryPolicy, registered: set<ConsumerId>, rows: seq<Record>, e: EventId,
                 consumers: seq<ConsumerId>, replies: nat -> Reply, j: nat)
    requires j < |consumers|
    ensures var before, c := HotPass(p, registered, rows, e, consumers[..j], replies), consumers[j];
            HotPass(p, registered, rows, e, consumers[..j + 1], replies)
            == if c in registered then Marked(p, before, e, c, HotMark(replies(j))) else before
    ensures EntriesOf(HotCalls(registered, e, consumers[..j + 1], replies), true)
            == EntriesOf(HotCalls(registered, e, consumers[..j], replies), true)
               + if consumers[j] in registered
                 then EntriesOf([Call(e, consumers[j], replies(j).outcome == Returns)], true) else []
  {
    var calls := HotCalls(registered, e, consumers[..j], replies);
    assert consumers[..j + 1][..j] == consumers[..j];
    assert calls + [] == calls;
    EntriesOfBoth(calls, [Call(e, consumers[j], replies(j).outcome == Returns)], true);
  }

  /** The hot path's record is the one of its pair. */
  lemma HotRowIsFor(p: RetryPolicy, registered: set<ConsumerId>, rows: seq<Record>, e: EventId,
                    consumers: seq<ConsumerId>, replies: nat -> Reply, j: nat)
    requires UniquePairs(rows) && j < |consumers| && RecordIndex(rows, e, consumers[j]) < |rows|
    ensures var now := HotPass(p, registered, rows, e, consumers[..j], replies);
            UniquePairs(now) && now[RecordIndex(rows, e, consumers[j])].IsFor(e, consumers[j])
  {
    HotPassKeepsPairs(p, registered, rows, e, consumers[..j], replies);
    IdentityKeepsUnique(rows, HotPass(p, registered, rows, e, consumers[..j], replies));
  }

  lemma {:induction false} HotFirst(p: RetryPolicy, s: System, committed: System, i: nat, registered: set<ConsumerId>,
                                    e: EventId, consumers: seq<ConsumerId>, replies: nat -> Reply, j: nat)
    returns (t: System)
    requires j <= |consumers| && UniquePairs(committed.rows)
    requires At(p, s, committed, {i}, i, Delivering(HotRows(committed.rows, e, consumers), true))
    requires forall m :: 0 <= m < |consumers| ==> RecordIndex(committed.rows, e, consumers[m]) < |committed.rows|
    requires forall m :: replies(m).now <= s.clock && replies(m).later <= s.clock
    ensures HotAt(p, s, committed, t, i, registered, e, consumers, replies, j)
  {
    if j == 0 {
      t := committed;
      assert HotRows(committed.rows, e, consumers)[0..] == HotRows(committed.rows, e, consumers);
    } else {
      var before := HotFirst(p, s, committed, i, registered, e, consumers, replies, j - 1);
      HotRowIsFor(p, registered, committed.rows, e, consumers, replies, j - 1);
      HeadOfSlice(HotRows(committed.rows, e, consumers), j - 1);
      t := HotNext(p, s, committed, before, i, registered, e, consumers, replies, j - 1);
    }
  }

  // ----- the run

  /** The clock readings of the run's marks and of its recovery pass; no process is lost. */
  ghost predicate RepliesInTime(s: System, hotReplies: nat -> Reply, passNow: real, replies: nat -> Reply) {
    && (forall m :: hotReplies(m).now <= s.clock && hotReplies(m).later <= s.clock)
    && passNow <= s.clock
    && (forall m :: replies(m).outcome != Lost && replies(m).now <= s.clock && replies(m).later <= s.clock)
  }

  function HotTable(p: RetryPolicy, registered: set<ConsumerId>, rows: seq<Record>, e: EventId,
                    consumers: seq<ConsumerId>, now: real, replies: nat -> Reply): seq<Record>
  {
    HotPass(p, registered, Committed(rows, e, consumers, now), e, consumers, replies)
  }

  lemma CommitAndHotPath(p: RetryPolicy, s: System, i: nat, registered: set<ConsumerId>, e: EventId,
                         consumers: seq<ConsumerId>, now: real, replies: nat -> Reply)
    returns (t: System)
    requires MayCommit(s, i, e, consumers, now)
    requires forall m :: replies(m).now <= s.clock && replies(m).later <= s.clock
    ensures At(p, s, t, {i}, i, Delivering([], true)) && t.events == s.events + {e} && UniquePairs(t.rows)
    ensures t.rows == HotTable(p, registered, s.rows, e, consumers, now, replies)
    ensures t.log == s.log + EntriesOf(HotCalls(registered, e, consumers, replies), true)
  {
    var committed := CommitStep(p, s, i, e, consumers, now);
    CommittedKeepsUnique(s.rows, e, consumers, now);
    forall m | 0 <= m < |consumers| ensures RecordIndex(committed.rows, e, consumers[m]) < |committed.rows| {
      CommitCovers(s, i, e, consumers, now, m);
    }
    t := HotFirst(p, s, committed, i, registered, e, consumers, replies, |consumers|);
    assert HotRows(committed.rows, e, consumers)[|consumers|..] == [] && consumers[..|consumers|] == consumers;
    HotPassKeepsPairs(p, registered, committed.rows, e, consumers, replies);
    IdentityKeepsUnique(committed.rows, t.rows);
  }

  /**
   * What the pipeline's method specifies for an admitted event is a run in which only its own
   * process acts: the same table and events, and exactly the hot calls and then the pass's in the log.
   */
  lemma ProcessIsARun(p: RetryPolicy, s: System, i: nat, registered: set<ConsumerId>, e: EventId,
                      consumers: seq<ConsumerId>, now: real, hotReplies: nat -> Reply, passNow: real,
                      claimed: seq<nat>, replies: nat -> Reply)
    returns (states: seq<System>, actions: seq<Action>)
    requires MayCommit(s, i, e, consumers, now) && RepliesInTime(s, hotReplies, passNow, replies)
    requires var hot := HotTable(p, registered, s.rows, e, consumers, now, hotReplies);
             IsSelection(p, RetiredAll(p, hot, passNow), passNow, 100, {}, claimed)
    ensures IsRun(p, states, actions) && states[0] == s
    ensures forall j :: 0 <= j < |actions| ==> actions[j].By? && actions[j].i == i
    ensures var last, hot := states[|actions|], HotTable(p, registered, s.rows, e, consumers, now, hotReplies);
            var scene := Scene(registered, s.events + {e});
            && last.rows == AfterPass(p, scene, hot, passNow, claimed, replies, |claimed|)
            && last.events == s.events + {e}
            && last.log == s.log + EntriesOf(HotCalls(registered, e, consumers, hotReplies), true)
                           + EntriesOf(CallsOf(scene, hot, claimed, replies), false)
            && i < |last.procs| && IsFree(last.procs[i])
  {
    var t := CommitAndHotPath(p, s, i, registered, e, consumers, now, hotReplies);
    var u := SettleFirst(p, t, s, {i}, i, registered, passNow, 100, {}, claimed, replies, |claimed|);
    assert claimed[|claimed|..] == [] && claimed[..|claimed|] == claimed;
    states, actions :| Leads(p, s, u, {i}, states, actions);
  }

  /**
   * So the results about all runs reach the method: from any reachable state, a record it leaves
   * DELIVERED has a call that returned, in the log before it or among its own calls.
   */
  lemma ProcessDeliversOnReturnOnly(p: RetryPolicy, s: System, i: nat, registered: set<ConsumerId>, e: EventId,
                                    consumers: seq<ConsumerId>, now: real, hotReplies: nat -> Reply, passNow: real,
                                    claimed: seq<nat>, replies: nat -> Reply, k: nat)
    requires 1 <= p.maxAttempts && Inv(p, s)
    requires MayCommit(s, i, e, consumers, now) && RepliesInTime(s, hotReplies, passNow, replies)
    requires var hot := HotTable(p, registered, s.rows, e, consumers, now, hotReplies);
             && IsSelection(p, RetiredAll(p, hot, passNow), passNow, 100, {}, claimed)
             && k < |hot|
    ensures var hot := HotTable(p, registered, s.rows, e, consumers, now, hotReplies);
            var scene := Scene(registered, s.events + {e});
            var r := AfterPass(p, scene, hot, passNow, claimed, replies, |claimed|)[k];
            r.state == Delivered ==>
              Finished(r.event, r.consumer, true) in
              s.log + EntriesOf(HotCalls(registered, e, consumers, hotReplies), true)
                    + EntriesOf(CallsOf(scene, hot, claimed, replies), false)
  {
    var states, actions := ProcessIsARun(p, s, i, registered, e, consumers, now, hotReplies, passNow, claimed, replies);
    RunDeliversOnReturnOnly(p, s, states, actions, k);
  }

  lemma RunDeliversOnReturnOnly(p: RetryPolicy, s: System, states: seq<System>, actions: seq<Action>, k: nat)
    requires 1 <= p.maxAttempts && Inv(p, s) && IsRun(p, states, actions) && states[0] == s
    requires k < |states[|actions|].rows|
    ensures var r := states[|actions|].rows[k];
            r.state == Delivered ==> Finished(r.event, r.consumer, true) in states[|actions|].log
  {
    InvStays(p, states, actions, |actions|);
    DeliveredHasReturned(p, states[|actions|], k);
  }

  lemma DeliveredHasReturned(p: RetryPolicy, s: System, k: nat)
    requires Inv(p, s) && k < |s.rows|
    ensures s.rows[k].state == Delivered ==> Finished(s.rows[k].event, s.rows[k].consumer, true) in s.log
  {
    if s.rows[k].state == Delivered {
      assert HasReturned(s, k);
    }
  }
}
