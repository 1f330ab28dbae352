/**
 * The recovery pass as one method is one of the runs of the interleaved protocol: whatever
 * holds of every run holds of the table the dispatcher's method leaves.
 */
module DeliveryRefinement {
  import opened Common
  import opened Outbox
  import opened Dispatcher
  import opened DeliveryProtocol
  import opened DeliverySafety

  /** Some run leads from s to t in which only the processes in `who` act. */
  ghost predicate Reaches(p: RetryPolicy, s: System, t: System, who: set<nat>) {
    exists states, actions :: Leads(p, s, t, who, states, actions)
  }

  ghost predicate Leads(p: RetryPolicy, s: System, t: System, who: set<nat>, states: seq<System>, actions: seq<Action>)
  {
    IsRunOf(p, states, actions, who) && states[0] == s && states[|actions|] == t
  }

  ghost predicate IsRunOf(p: RetryPolicy, states: seq<System>, actions: seq<Action>, who: set<nat>) {
    IsRun(p, states, actions) && forall j :: 0 <= j < |actions| ==> actions[j].By? && actions[j].i in who
  }

  lemma ReachesItself(p: RetryPolicy, s: System, who: set<nat>)
    ensures Reaches(p, s, s, who)
  {
    assert Leads(p, s, s, who, [s], []);
  }

  lemma RunGrows(p: RetryPolicy, states: seq<System>, actions: seq<Action>, who: set<nat>, a: Action, t: System)
    requires IsRunOf(p, states, actions, who) && Takes(p, states[|actions|], a, t) && a.By? && a.i in who
    ensures IsRunOf(p, states + [t], actions + [a], who)
  {
    var longer, more := states + [t], actions + [a];
    forall j | 0 <= j < |more| ensures TakesAt(p, longer, more, j) {
      if j < |actions| {
        assert TakesAt(p, states, actions, j);
      }
    }
  }

  lemma ReachesNext(p: RetryPolicy, s: System, t: System, i: nat, step: Step, who: set<nat>)
    requires Reaches(p, s, t, who) && |t.tallies| == |t.rows| && Enabled(p, t, By(i, step)) && i in who
    ensures Reaches(p, s, Next(p, t, By(i, step)), who)
  {
    var states, actions :| Leads(p, s, t, who, states, actions);
    var a := By(i, step);
    LeadsOn(p, s, t, who, states, actions, a, Next(p, t, a));
  }

  lemma LeadsOn(p: RetryPolicy, s: System, t: System, who: set<nat>, states: seq<System>, actions: seq<Action>,
                a: Action, u: System)
    requires Leads(p, s, t, who, states, actions) && Takes(p, t, a, u) && a.By? && a.i in who
    ensures Leads(p, s, u, who, states + [u], actions + [a])
  {
    RunGrows(p, states, actions, who, a, u);
  }

  /** A state reached from s by the processes in `who`, with process i where it should be. */
  ghost predicate At(p: RetryPolicy, s: System, t: System, who: set<nat>, i: nat, proc: Proc) {
    && Reaches(p, s, t, who)
    && |t.tallies| == |t.rows|
    && t.clock == s.clock
    && i in who && i < |t.procs| && t.procs[i] == proc
  }

  /** A step of process i that adds no record. */
  lemma PlainStep(p: RetryPolicy, s: System, t: System, who: set<nat>, i: nat, step: Step)
    requires i < |t.procs| && At(p, s, t, who, i, t.procs[i]) && !step.Commit? && StepEnabled(p, t, t.procs[i], step)
    ensures var u, proc := Next(p, t, By(i, step)), ProcAfter(p, t, t.procs[i], step, t.rows);
            && At(p, s, u, who, i, proc)
            && u.procs == t.procs[i := proc] && u.events == t.events
            && u.log == t.log + LogOf(t.rows, t.procs[i], step)
            && |u.rows| == |t.rows|
            && forall k :: 0 <= k < |t.rows| ==>
                u.rows[k] == Touched(p, t.rows[k], StepEvent(p, t, t.procs[i], step, t.rows, k))
  {
    var a := By(i, step);
    ReachesNext(p, s, t, i, step, who);
    assert Grown(t, a) == t.rows;
    forall k | 0 <= k < |t.rows|
      ensures Next(p, t, a).rows[k] == Touched(p, t.rows[k], StepEvent(p, t, t.procs[i], step, t.rows, k))
    {
      NextRow(p, t, a, k);
    }
  }

  lemma RetireAndSelect(p: RetryPolicy, s: System, s0: System, who: set<nat>, i: nat, now: real, limit: nat,
                        filter: set<ConsumerId>, claimed: seq<nat>)
    returns (t: System)
    requires i < |s.procs| && At(p, s0, s, who, i, s.procs[i]) && IsFree(s.procs[i]) && now <= s.clock
    requires IsSelection(p, RetiredAll(p, s.rows, now), now, limit, filter, claimed)
    ensures At(p, s0, t, who, i, Claiming(now, claimed, [])) && t.rows == RetiredAll(p, s.rows, now)
    ensures SameElsewhere(s, t, i) && t.log == s.log
  {
    PlainStep(p, s0, s, who, i, Retire(now));
    var r := Next(p, s, By(i, Retire(now)));
    assert r.rows == RetiredAll(p, s.rows, now);
    PlainStep(p, s0, r, who, i, Select(limit, filter, claimed));
    t := Next(p, r, By(i, Select(limit, filter, claimed)));
    assert t.rows == r.rows;
  }

  /** The events and every other process are as they were. */
  ghost predicate SameElsewhere(s: System, t: System, i: nat) {
    && t.events == s.events && |t.procs| == |s.procs|
    && forall j :: 0 <= j < |s.procs| && j != i ==> t.procs[j] == s.procs[j]
  }

  /** Each conditional update wins: nobody interferes, and a row is claimed once. */
  lemma ClaimWins(p: RetryPolicy, s: System, t: System, who: set<nat>, i: nat, now: real, todo: seq<nat>, won: seq<nat>)
    returns (u: System)
    requires todo != [] && todo[0] < |t.rows| && IsEligible(p, t.rows[todo[0]], now)
    requires At(p, s, t, who, i, Claiming(now, todo, won))
    ensures At(p, s, u, who, i, Claiming(now, todo[1..], won + [todo[0]]))
    ensures u.rows == t.rows[todo[0] := Claimed(t.rows[todo[0]], now)]
    ensures SameElsewhere(t, u, i) && u.log == t.log
  {
    PlainStep(p, s, t, who, i, ClaimNext);
    u := Next(p, t, By(i, ClaimNext));
  }

  lemma ClaimOne(p: RetryPolicy, s: System, t: System, who: set<nat>, i: nat, now: real, claimed: seq<nat>, j: nat,
                 retired: seq<Record>)
    returns (u: System)
    requires j < |claimed| && Distinct(claimed) && claimed[j] < |retired| && IsEligible(p, retired[claimed[j]], now)
    requires At(p, s, t, who, i, Claiming(now, claimed[j..], claimed[..j]))
             && t.rows == ClaimedAll(retired, claimed[..j], now)
    ensures At(p, s, u, who, i, Claiming(now, claimed[j + 1..], claimed[..j + 1]))
    ensures u.rows == ClaimedAll(retired, claimed[..j + 1], now)
    ensures SameElsewhere(t, u, i) && u.log == t.log
  {
    var k := claimed[j];
    assert k !in claimed[..j];
    u := ClaimWins(p, s, t, who, i, now, claimed[j..], claimed[..j]);
    assert claimed[j..][0] == k && claimed[j..][1..] == claimed[j + 1..];
    assert claimed[..j] + [k] == claimed[..j + 1];
    ClaimedAllGrows(retired, claimed[..j], k, now);
  }

  lemma SameElsewhereTwice(s: System, t: System, u: System, i: nat)
    requires SameElsewhere(s, t, i) && SameElsewhere(t, u, i)
    ensures SameElsewhere(s, u, i)
  {
  }

  lemma {:induction false} ClaimFirst(p: RetryPolicy, s: System, s0: System, who: set<nat>, i: nat,
                                      now: real, limit: nat,
                                      filter: set<ConsumerId>, claimed: seq<nat>, j: nat)
    returns (t: System)
    requires i < |s.procs| && At(p, s0, s, who, i, s.procs[i]) && IsFree(s.procs[i]) && now <= s.clock && j <= |claimed|
    requires IsSelection(p, RetiredAll(p, s.rows, now), now, limit, filter, claimed)
    ensures At(p, s0, t, who, i, Claiming(now, claimed[j..], claimed[..j]))
    ensures t.rows == ClaimedAll(RetiredAll(p, s.rows, now), claimed[..j], now)
    ensures SameElsewhere(s, t, i) && t.log == s.log
  {
    if j == 0 {
      t := RetireAndSelect(p, s, s0, who, i, now, limit, filter, claimed);
      assert claimed[0..] == claimed && claimed[..0] == [];
    } else {
      var before := ClaimFirst(p, s, s0, who, i, now, limit, filter, claimed, j - 1);
      t := ClaimOne(p, s0, before, who, i, now, claimed, j - 1, RetiredAll(p, s.rows, now));
      SameElsewhereTwice(s, before, t, i);
    }
  }

  lemma ClaimAll(p: RetryPolicy, s: System, s0: System, who: set<nat>, i: nat, now: real, limit: nat,
                 filter: set<ConsumerId>, claimed: seq<nat>)
    returns (t: System)
    requires i < |s.procs| && At(p, s0, s, who, i, s.procs[i]) && IsFree(s.procs[i]) && now <= s.clock
    requires IsSelection(p, RetiredAll(p, s.rows, now), now, limit, filter, claimed)
    ensures At(p, s0, t, who, i, Delivering(claimed, false))
    ensures t.rows == ClaimedAll(RetiredAll(p, s.rows, now), claimed, now)
    ensures SameElsewhere(s, t, i) && t.log == s.log
  {
    var before := ClaimFirst(p, s, s0, who, i, now, limit, filter, claimed, |claimed|);
    assert claimed[|claimed|..] == [] && claimed[..|claimed|] == claimed;
    PlainStep(p, s0, before, who, i, ClaimsDone);
    t := Next(p, before, By(i, ClaimsDone));
    assert t.rows == before.rows;
  }

  // ----- one claimed record

  lemma MarkStep(p: RetryPolicy, s: System, t: System, who: set<nat>, i: nat, step: Step, k: nat, mark: Mark)
    requires i < |t.procs| && At(p, s, t, who, i, t.procs[i]) && !step.Commit? && StepEnabled(p, t, t.procs[i], step)
    requires UniquePairs(t.rows) && k < |t.rows|
    requires forall j :: 0 <= j < |t.rows| ==>
             StepEvent(p, t, t.procs[i], step, t.rows, j) == if j == k then Marking(mark) else Keep
    ensures Next(p, t, By(i, step)).rows == Marked(p, t.rows, t.rows[k].event, t.rows[k].consumer, mark)
  {
    PlainStep(p, s, t, who, i, step);
    RecordIndexIsUnique(t.rows, t.rows[k].event, t.rows[k].consumer, k);
    assert Next(p, t, By(i, step)).rows == t.rows[k := Applied(p, t.rows[k], mark)];
  }

  /** The entries of consecutive consumer calls: each started, then finished. */
  function EntriesOf(calls: seq<Call>, hot: bool): seq<Entry> {
    if calls == [] then []
    else
      var last := calls[|calls| - 1];
      EntriesOf(calls[..|calls| - 1], hot)
      + [Started(last.event, last.consumer, hot), Finished(last.event, last.consumer, last.ok)]
  }

  lemma EntriesOfOne(call: Call, hot: bool)
    ensures EntriesOf([call], hot)
            == [Started(call.event, call.consumer, hot), Finished(call.event, call.consumer, call.ok)]
  {
    assert [call][..0] == [];
  }

  lemma {:induction false} EntriesOfBoth(a: seq<Call>, b: seq<Call>, hot: bool)
    ensures EntriesOf(a + b, hot) == EntriesOf(a, hot) + EntriesOf(b, hot)
  {
    if b == [] {
      assert a + b == a;
    } else {
      var n := |b| - 1;
      EntriesOfBoth(a, b[..n], hot);
      assert (a + b)[..|a + b| - 1] == a + b[..n];
      assert (a + b)[|a + b| - 1] == b[n];
    }
  }

  lemma PutBack(p: RetryPolicy, s: System, t: System, who: set<nat>, i: nat, todo: seq<nat>, scene: Scene, reply: Reply)
    returns (u: System)
    requires todo != [] && At(p, s, t, who, i, Delivering(todo, false)) && UniquePairs(t.rows) && todo[0] < |t.rows|
    requires scene.events == t.events && reply.now <= t.clock && reply.later <= t.clock && reply.outcome != Lost
    requires CallFor(scene, t.rows[todo[0]], reply) == []
    ensures At(p, s, u, who, i, Delivering(todo[1..], false))
    ensures u.rows == MarkedBy(p, scene, t.rows, t.rows[todo[0]], reply)
    ensures SameElsewhere(t, u, i) && u.log == t.log
  {
    var mark := Verdict(scene, t.rows[todo[0]], reply).value;
    var step := if mark.Return? then Requeue(mark.now) else LookupFail(mark.error, mark.now, mark.later);
    PlainStep(p, s, t, who, i, step);
    MarkStep(p, s, t, who, i, step, todo[0], mark);
    u := Next(p, t, By(i, step));
  }

  lemma CallStep(p: RetryPolicy, s: System, t: System, who: set<nat>, i: nat, todo: seq<nat>, hot: bool, ok: bool)
    returns (u: System)
    requires todo != [] && At(p, s, t, who, i, Delivering(todo, hot)) && todo[0] < |t.rows|
    requires hot || t.rows[todo[0]].event in t.events
    ensures At(p, s, u, who, i, Returned(todo[0], ok, todo[1..], hot)) && u.rows == t.rows && SameElsewhere(t, u, i)
    ensures var r := t.rows[todo[0]];
            u.log == t.log + [Started(r.event, r.consumer, hot), Finished(r.event, r.consumer, ok)]
  {
    PlainStep(p, s, t, who, i, Start);
    var called := Next(p, t, By(i, Start));
    assert called.rows == t.rows;
    PlainStep(p, s, called, who, i, Finish(ok));
    u := Next(p, called, By(i, Finish(ok)));
    assert u.rows == t.rows;
  }

  lemma WriteOutcome(p: RetryPolicy, s: System, t: System, who: set<nat>, i: nat, k: nat, rest: seq<nat>,
                     hot: bool, ok: bool,
                     now: real, later: real)
    returns (u: System)
    requires At(p, s, t, who, i, Returned(k, ok, rest, hot)) && UniquePairs(t.rows) && k < |t.rows|
    requires now <= t.clock && later <= t.clock
    ensures At(p, s, u, who, i, Delivering(rest, hot)) && SameElsewhere(t, u, i) && u.log == t.log
    ensures u.rows == Marked(p, t.rows, t.rows[k].event, t.rows[k].consumer,
                             if ok then Deliver(now) else Fail("consumer raised", now, later))
  {
    var step := Write(now, later);
    PlainStep(p, s, t, who, i, step);
    MarkStep(p, s, t, who, i, step, k, if ok then Deliver(now) else Fail("consumer raised", now, later));
    u := Next(p, t, By(i, step));
  }

  lemma CallAndWrite(p: RetryPolicy, s: System, t: System, who: set<nat>, i: nat, todo: seq<nat>, scene: Scene,
                     reply: Reply)
    returns (u: System)
    requires todo != [] && At(p, s, t, who, i, Delivering(todo, false)) && UniquePairs(t.rows) && todo[0] < |t.rows|
    requires scene.events == t.events && reply.now <= t.clock && reply.later <= t.clock && reply.outcome != Lost
    requires CallFor(scene, t.rows[todo[0]], reply) != []
    ensures At(p, s, u, who, i, Delivering(todo[1..], false))
    ensures u.rows == MarkedBy(p, scene, t.rows, t.rows[todo[0]], reply)
    ensures SameElsewhere(t, u, i) && u.log == t.log + EntriesOf(CallFor(scene, t.rows[todo[0]], reply), false)
  {
    var r, ok := t.rows[todo[0]], reply.outcome == Returns;
    var returned := CallStep(p, s, t, who, i, todo, false, ok);
    u := WriteOutcome(p, s, returned, who, i, todo[0], todo[1..], false, ok, reply.now, reply.later);
    SameElsewhereTwice(t, returned, u, i);
    EntriesOfOne(Call(r.event, r.consumer, ok), false);
  }

  lemma SettleOne(p: RetryPolicy, s: System, t: System, who: set<nat>, i: nat, todo: seq<nat>, scene: Scene,
                  reply: Reply)
    returns (u: System)
    requires todo != [] && At(p, s, t, who, i, Delivering(todo, false)) && UniquePairs(t.rows) && todo[0] < |t.rows|
    requires scene.events == t.events && reply.now <= t.clock && reply.later <= t.clock && reply.outcome != Lost
    ensures At(p, s, u, who, i, Delivering(todo[1..], false))
    ensures u.rows == MarkedBy(p, scene, t.rows, t.rows[todo[0]], reply)
    ensures SameElsewhere(t, u, i) && u.log == t.log + EntriesOf(CallFor(scene, t.rows[todo[0]], reply), false)
  {
    if CallFor(scene, t.rows[todo[0]], reply) == [] {
      u := PutBack(p, s, t, who, i, todo, scene, reply);
    } else {
      u := CallAndWrite(p, s, t, who, i, todo, scene, reply);
    }
  }

  // ----- the pass

  ghost predicate Admissible(p: RetryPolicy, s: System, i: nat, now: real, limit: nat, filter: set<ConsumerId>,
                             claimed: seq<nat>, replies: nat -> Reply)
  {
    && i < |s.procs| && IsFree(s.procs[i])
    && |s.tallies| == |s.rows| && UniquePairs(s.rows) && now <= s.clock
    && (forall j :: replies(j).outcome != Lost && replies(j).now <= s.clock && replies(j).later <= s.clock)
    && IsSelection(p, RetiredAll(p, s.rows, now), now, limit, filter, claimed)
  }

  lemma {:induction false} SettleFirst(p: RetryPolicy, s: System, s0: System, who: set<nat>, i: nat,
                                       consumers: set<ConsumerId>,
                                       now: real, limit: nat, filter: set<ConsumerId>, claimed: seq<nat>,
                                       replies: nat -> Reply, j: nat)
    returns (t: System)
    requires Admissible(p, s, i, now, limit, filter, claimed, replies) && j <= |claimed|
             && At(p, s0, s, who, i, s.procs[i])
    ensures At(p, s0, t, who, i, Delivering(claimed[j..], false)) && SameElsewhere(s, t, i)
    ensures t.rows == AfterPass(p, Scene(consumers, s.events), s.rows, now, claimed, replies, j)
    ensures t.log == s.log + EntriesOf(CallsOf(Scene(consumers, s.events), s.rows, claimed[..j], replies), false)
  {
    var scene := Scene(consumers, s.events);
    if j == 0 {
      t := ClaimAll(p, s, s0, who, i, now, limit, filter, claimed);
      ClaimOpensPass(p, scene, s.rows, now, claimed, replies);
      assert claimed[0..] == claimed;
    } else {
      var before := SettleFirst(p, s, s0, who, i, consumers, now, limit, filter, claimed, replies, j - 1);
      t := SettleNext(p, s.rows, s.log, s0, before, who, i, scene, now, claimed, replies, j - 1);
      SameElsewhereTwice(s, before, t, i);
    }
  }

  lemma SettleNext(p: RetryPolicy, rows: seq<Record>, log: seq<Entry>, s0: System, t: System, who: set<nat>, i: nat,
                   scene: Scene, now: real, claimed: seq<nat>, replies: nat -> Reply, j: nat)
    returns (u: System)
    requires UniquePairs(rows) && Distinct(claimed) && j < |claimed|
    requires forall m :: 0 <= m < |claimed| ==> claimed[m] < |rows|
    requires replies(j).outcome != Lost && replies(j).now <= t.clock && replies(j).later <= t.clock
    requires At(p, s0, t, who, i, Delivering(claimed[j..], false)) && scene.events == t.events
    requires t.rows == AfterPass(p, scene, rows, now, claimed, replies, j)
    requires t.log == log + EntriesOf(CallsOf(scene, rows, claimed[..j], replies), false)
    ensures At(p, s0, u, who, i, Delivering(claimed[j + 1..], false)) && SameElsewhere(t, u, i)
    ensures u.rows == AfterPass(p, scene, rows, now, claimed, replies, j + 1)
    ensures u.log == log + EntriesOf(CallsOf(scene, rows, claimed[..j + 1], replies), false)
  {
    HeadOfSlice(claimed, j);
    NextOfPass(p, scene, rows, now, claimed, replies, j, t.rows);
    u := SettleOne(p, s0, t, who, i, claimed[j..], scene, replies(j));
    EntriesInTurn(log, EntriesOf(CallsOf(scene, rows, claimed[..j], replies), false),
                  EntriesOf(CallFor(scene, t.rows[claimed[j]], replies(j)), false));
  }

  lemma HeadOfSlice(s: seq<nat>, j: nat)
    requires j < |s|
    ensures s[j..] != [] && s[j..][0] == s[j] && s[j..][1..] == s[j + 1..]
  {
  }

  lemma EntriesInTurn(log: seq<Entry>, a: seq<Entry>, b: seq<Entry>)
    ensures log + a + b == log + (a + b)
  {
  }

  /** Settling the j-th claimed record is the next step of the pass, in the table and in the calls. */
  lemma NextOfPass(p: RetryPolicy, scene: Scene, rows: seq<Record>, now: real, claimed: seq<nat>, replies: nat -> Reply,
                   j: nat, current: seq<Record>)
    requires UniquePairs(rows) && Distinct(claimed) && j < |claimed|
    requires forall m :: 0 <= m < |claimed| ==> claimed[m] < |rows|
    requires current == AfterPass(p, scene, rows, now, claimed, replies, j)
    ensures UniquePairs(current) && claimed[j] < |current|
    ensures MarkedBy(p, scene, current, current[claimed[j]], replies(j))
            == AfterPass(p, scene, rows, now, claimed, replies, j + 1)
    ensures EntriesOf(CallsOf(scene, rows, claimed[..j + 1], replies), false)
            == EntriesOf(CallsOf(scene, rows, claimed[..j], replies), false)
               + EntriesOf(CallFor(scene, current[claimed[j]], replies(j)), false)
  {
    PassGrows(p, scene, rows, now, claimed, replies, j);
    AfterPassKeepsPairs(p, scene, rows, now, claimed, replies, j);
    EntriesOfBoth(CallsOf(scene, rows, claimed[..j], replies), CallFor(scene, current[claimed[j]], replies(j)), false);
  }

  /**
   * The whole pass, as the dispatcher's method specifies it, is a run in which only its own
   * process acts: it leaves the same table, logs exactly the pass's calls, and frees the process.
   */
  lemma PassIsARun(p: RetryPolicy, s: System, i: nat, consumers: set<ConsumerId>, now: real, limit: nat,
                   filter: set<ConsumerId>, claimed: seq<nat>, replies: nat -> Reply)
    returns (states: seq<System>, actions: seq<Action>)
    requires Admissible(p, s, i, now, limit, filter, claimed, replies)
    ensures IsRun(p, states, actions) && states[0] == s
    ensures forall j :: 0 <= j < |actions| ==> actions[j].By? && actions[j].i == i
    ensures states[|actions|].rows == AfterPass(p, Scene(consumers, s.events), s.rows, now, claimed, replies, |claimed|)
    ensures states[|actions|].log
            == s.log + EntriesOf(CallsOf(Scene(consumers, s.events), s.rows, claimed, replies), false)
    ensures i < |states[|actions|].procs| && IsFree(states[|actions|].procs[i])
  {
    ReachesItself(p, s, {i});
    var t := SettleFirst(p, s, s, {i}, i, consumers, now, limit, filter, claimed, replies, |claimed|);
    assert claimed[|claimed|..] == [] && claimed[..|claimed|] == claimed;
    states, actions :| Leads(p, s, t, {i}, states, actions);
  }
}

/** Runs and passes together: what becomes of a committed event. */
module DeliveryGuarantee {
  import opened Outbox
  import opened Dispatcher
  import opened DeliveryProgress
  import opened DeliveryProtocol
  import opened DeliverySafety
  import opened DeliveryRuns

  lemma {:induction false} PassesKeepIdentity(p: RetryPolicy, rows: seq<Record>, passes: seq<Pass>)
    requires UniquePairs(rows)
    ensures UniquePairs(AfterAll(p, rows, passes))
    ensures forall k :: 0 <= k < |rows| ==> SameIdentity(rows[k], AfterAll(p, rows, passes)[k])
  {
    if passes != [] {
      var last := passes[|passes| - 1];
      var mid := AfterAll(p, rows, passes[..|passes| - 1]);
      PassesKeepIdentity(p, rows, passes[..|passes| - 1]);
      AfterPassKeepsPairs(p, last.scene, mid, last.now, last.claimed, last.replies, |last.claimed|);
    }
  }

  /**
   * A restart: from the table of any state that any interleaving can reach, with whatever claims
   * in the middle, spaced passes with the consumers registered leave each committed pair with
   * its one record, and that record DELIVERED or DEAD_LETTER. The processes of that state are
   * taken never to act again; `InterleavedPassesSettle` is the result with all others at work.
   */
  lemma CommittedPairSettles(p: RetryPolicy, states: seq<System>, actions: seq<Action>, n: nat,
                             passes: seq<Pass>, pair: Pair)
    returns (k: nat)
    requires 1 <= p.maxAttempts && IsRun(p, states, actions) && IsInitial(states[0]) && n <= |actions|
    requires pair in states[n].committed
    requires IsSchedule(p, states[n].rows, states[n].clock, passes) && |passes| >= TotalRank(p, states[n].rows)
    ensures var after := AfterAll(p, states[n].rows, passes);
            && k < |after| && after[k].IsTerminal()
            && forall j :: 0 <= j < |after| ==> (after[j].IsFor(pair.0, pair.1) <==> j == k)
  {
    ReachableTablesFit(p, states, actions, n);
    k := CommittedPairHasOneRecord(p, states, actions, n, n, pair);
    EveryRecordSettles(p, states[n].rows, states[n].clock, passes);
    PassesKeepIdentity(p, states[n].rows, passes);
    assert SameIdentity(states[n].rows[k], AfterAll(p, states[n].rows, passes)[k]);
  }
}
