/** Every run of the delivery protocol: at-least-once bookkeeping, call budgets and exclusive claims. */
module DeliveryRuns {
  import opened Common
  import opened Counting
  import opened Outbox
  import opened DeliveryProgress
  import opened DeliveryProtocol
  import opened DeliverySafety

  // ----- every call is paid for by a claim, or by a turn of the hot path

  function Starts(log: seq<Entry>, e: EventId, c: ConsumerId, hot: bool): nat {
    if log == [] then 0
    else Starts(log[..|log| - 1], e, c, hot) + if log[|log| - 1] == Started(e, c, hot) then 1 else 0
  }

  /** The rows a process may still call for: those it won, or those of its hot path. */
  function Queue(proc: Proc, hot: bool): seq<nat> {
    match proc
    case Claiming(_, _, won) => if hot then [] else won
    case Delivering(todo, h) => if h == hot then todo else []
    case Calling(_, rest, h) => if h == hot then rest else []
    case Returned(_, _, rest, h) => if h == hot then rest else []
    case _ => []
  }

  function Holding(proc: Proc, hot: bool, k: nat): nat {
    multiset(Queue(proc, hot))[k]
  }

  function Holdings(procs: seq<Proc>, hot: bool, k: nat): (counts: seq<nat>)
    ensures |counts| == |procs|
  {
    seq(|procs|, i requires 0 <= i < |procs| => Holding(procs[i], hot, k))
  }

  function Held(procs: seq<Proc>, hot: bool, k: nat): nat {
    Sum(Holdings(procs, hot, k))
  }

  function Credit(t: Tally, hot: bool): int {
    if hot then t.offers else t.claims - t.requeues
  }

  /** Calls made and calls that may still come never exceed the record's credit. */
  ghost predicate WithinCredit(log: seq<Entry>, r: Record, t: Tally, procs: seq<Proc>, k: nat, hot: bool) {
    Starts(log, r.event, r.consumer, hot) + Held(procs, hot, k) <= Credit(t, hot)
  }

  ghost predicate BudgetOk(s: System) {
    && |s.tallies| == |s.rows|
    && (forall k: nat, hot :: k < |s.rows| ==> WithinCredit(s.log, s.rows[k], s.tallies[k], s.procs, k, hot))
  }

  lemma HeldUpdate(procs: seq<Proc>, i: nat, proc: Proc, hot: bool, k: nat)
    requires i < |procs|
    ensures Held(procs[i := proc], hot, k) == Held(procs, hot, k) - Holding(procs[i], hot, k) + Holding(proc, hot, k)
  {
    SumUpdate(Holdings(procs, hot, k), i, Holding(proc, hot, k));
    assert Holdings(procs[i := proc], hot, k) == Holdings(procs, hot, k)[i := Holding(proc, hot, k)];
  }

  lemma PastTheTable(s: System, proc: Proc, hot: bool, k: nat)
    requires ProcOk(s, proc) && k >= |s.rows|
    ensures Holding(proc, hot, k) == 0
  {
    forall i | 0 <= i < |Queue(proc, hot)| ensures Queue(proc, hot)[i] != k {
      if proc.Claiming? && !hot {
        assert (proc.won + proc.todo)[i] == proc.won[i];
      }
    }
  }

  lemma NobodyHolds(s: System, hot: bool, k: nat)
    requires k >= |s.rows| && ProcsOk(s)
    ensures Held(s.procs, hot, k) == 0
  {
    forall i | 0 <= i < |s.procs| ensures Holding(s.procs[i], hot, k) == 0 {
      PastTheTable(s, s.procs[i], hot, k);
    }
    SumOfNothing(Holdings(s.procs, hot, k));
  }

  lemma {:induction false} NeverCalled(s: System, log: seq<Entry>, e: EventId, c: ConsumerId, hot: bool)
    requires !HasRecord(s.rows, e, c) && forall j :: 0 <= j < |log| ==> EntryOk(s, log[j])
    ensures Starts(log, e, c, hot) == 0
  {
    if log != [] {
      NeverCalled(s, log[..|log| - 1], e, c, hot);
      assert EntryOk(s, log[|log| - 1]);
    }
  }

  /** A fresh record starts without calls and without holders. */
  lemma FreshWithinCredit(p: RetryPolicy, s: System, a: Action, k: nat, hot: bool)
    requires PairsOk(s) && ProcsOk(s) && LogOk(s) && Enabled(p, s, a) && |s.rows| <= k < |Grown(s, a)|
    ensures WithinCredit(s.log, Grown(s, a)[k], NOTHING, s.procs, k, hot)
  {
    FreshHasNoRecord(p, s, a, k);
    NeverCalled(s, s.log, Grown(s, a)[k].event, Grown(s, a)[k].consumer, hot);
    NobodyHolds(s, hot, k);
  }

  lemma FreshHasNoRecord(p: RetryPolicy, s: System, a: Action, k: nat)
    requires PairsOk(s) && Enabled(p, s, a) && |s.rows| <= k < |Grown(s, a)|
    ensures !HasRecord(s.rows, Grown(s, a)[k].event, Grown(s, a)[k].consumer)
  {
    GrownIsUnique(p, s, a);
    assert Grown(s, a)[k] == Fresh(s, a)[k - |s.rows|];
  }

  lemma HeadCount(todo: seq<nat>, k: nat)
    requires todo != []
    ensures multiset(todo)[k] == multiset(todo[1..])[k] + if todo[0] == k then 1 else 0
  {
    assert todo == [todo[0]] + todo[1..];
  }

  /** How the step changes what its process may still call for, against the record's new credit. */
  ghost predicate Pays(p: RetryPolicy, s: System, proc: Proc, step: Step, rows: seq<Record>, t: Tally,
                       k: nat, hot: bool)
    requires StepEnabled(p, s, proc, step) && k < |rows|
  {
    var started := if LogOf(rows, proc, step) == [Started(rows[k].event, rows[k].consumer, hot)] then 1 else 0;
    started + Holding(ProcAfter(p, s, proc, step, rows), hot, k) - Holding(proc, hot, k)
    <= Credit(TallyAfter(t, StepEvent(p, s, proc, step, rows, k)), hot) - Credit(t, hot)
  }

  lemma StartPays(p: RetryPolicy, s: System, proc: Proc, step: Step, rows: seq<Record>, t: Tally, k: nat, hot: bool)
    requires StepEnabled(p, s, proc, step) && k < |rows| && UniquePairs(rows) && step.Start?
    requires proc.todo[0] < |rows|
    ensures Pays(p, s, proc, step, rows, t, k, hot)
  {
    HeadCount(proc.todo, k);
    if proc.todo[0] != k {
      OtherRowOtherPair(rows, proc.todo[0], k);
    }
  }

  lemma OtherRowOtherPair(rows: seq<Record>, j: nat, k: nat)
    requires UniquePairs(rows) && j < |rows| && k < |rows| && j != k
    ensures !rows[j].IsFor(rows[k].event, rows[k].consumer)
  {
    if j > k {
      assert !rows[k].IsFor(rows[j].event, rows[j].consumer);
    }
  }

  lemma HeadLeavesPays(p: RetryPolicy, s: System, proc: Proc, step: Step, rows: seq<Record>, t: Tally,
                       k: nat, hot: bool)
    requires StepEnabled(p, s, proc, step) && k < |rows|
    requires step.Requeue? || step.Skip? || step.LookupFail?
    ensures Pays(p, s, proc, step, rows, t, k, hot)
  {
    HeadCount(proc.todo, k);
  }

  lemma ClaimPays(p: RetryPolicy, s: System, proc: Proc, rows: seq<Record>, t: Tally, k: nat, hot: bool)
    requires StepEnabled(p, s, proc, ClaimNext) && k < |rows|
    ensures Pays(p, s, proc, ClaimNext, rows, t, k, hot)
  {
  }

  lemma OtherStepPays(p: RetryPolicy, s: System, proc: Proc, step: Step, rows: seq<Record>, t: Tally, k: nat, hot: bool)
    requires StepEnabled(p, s, proc, step) && k < |rows|
    requires step.Retire? || step.Select? || step.ClaimsDone? || step.Finish? || step.Crash?
    ensures Pays(p, s, proc, step, rows, t, k, hot)
  {
  }

  lemma CommitPays(p: RetryPolicy, s: System, proc: Proc, step: Step, rows: seq<Record>, t: Tally, k: nat, hot: bool)
    requires StepEnabled(p, s, proc, step) && k < |rows| && step.Commit?
    ensures Pays(p, s, proc, step, rows, t, k, hot)
  {
  }

  lemma WritePays(p: RetryPolicy, s: System, proc: Proc, step: Step, rows: seq<Record>, t: Tally, k: nat, hot: bool)
    requires StepEnabled(p, s, proc, step) && k < |rows| && step.Write?
    ensures Pays(p, s, proc, step, rows, t, k, hot)
  {
  }

  lemma StepPays(p: RetryPolicy, s: System, proc: Proc, step: Step, rows: seq<Record>, t: Tally, k: nat, hot: bool)
    requires StepEnabled(p, s, proc, step) && k < |rows| && UniquePairs(rows) && |s.rows| <= |rows|
    ensures Pays(p, s, proc, step, rows, t, k, hot)
  {
    if step.Start? {
      StartPays(p, s, proc, step, rows, t, k, hot);
    } else if step.Requeue? || step.Skip? || step.LookupFail? {
      HeadLeavesPays(p, s, proc, step, rows, t, k, hot);
    } else if step.ClaimNext? {
      ClaimPays(p, s, proc, rows, t, k, hot);
    } else if step.Commit? {
      CommitPays(p, s, proc, step, rows, t, k, hot);
    } else if step.Write? {
      WritePays(p, s, proc, step, rows, t, k, hot);
    } else {
      OtherStepPays(p, s, proc, step, rows, t, k, hot);
    }
  }

  lemma LogGrows(log: seq<Entry>, more: seq<Entry>, e: EventId, c: ConsumerId, hot: bool)
    requires |more| <= 1
    ensures Starts(log + more, e, c, hot) == Starts(log, e, c, hot) + if more == [Started(e, c, hot)] then 1 else 0
  {
    if |more| == 1 {
      assert (log + more)[..|log|] == log;
    } else {
      assert log + more == log;
    }
  }

  lemma StepKeepsCredit(p: RetryPolicy, s: System, i: nat, step: Step, rows: seq<Record>, t: Tally, k: nat, hot: bool)
    requires i < |s.procs| && StepEnabled(p, s, s.procs[i], step) && k < |rows| && UniquePairs(rows)
             && |s.rows| <= |rows|
    requires WithinCredit(s.log, rows[k], t, s.procs, k, hot)
    ensures WithinCredit(s.log + LogOf(rows, s.procs[i], step), rows[k],
                         TallyAfter(t, StepEvent(p, s, s.procs[i], step, rows, k)),
                         s.procs[i := ProcAfter(p, s, s.procs[i], step, rows)], k, hot)
  {
    StepPays(p, s, s.procs[i], step, rows, t, k, hot);
    HeldUpdate(s.procs, i, ProcAfter(p, s, s.procs[i], step, rows), hot, k);
    LogGrows(s.log, LogOf(rows, s.procs[i], step), rows[k].event, rows[k].consumer, hot);
  }

  lemma RowKeepsCredit(p: RetryPolicy, s: System, a: Action, t: Tally, k: nat, hot: bool)
    requires PairsOk(s) && Enabled(p, s, a) && k < |Grown(s, a)|
    requires t == (if k < |s.rows| then s.tallies[k] else NOTHING)
    requires WithinCredit(s.log, Grown(s, a)[k], t, s.procs, k, hot)
    ensures var n := Next(p, s, a);
            WithinCredit(n.log, n.rows[k], n.tallies[k], n.procs, k, hot)
  {
    var rows := Grown(s, a);
    NextRow(p, s, a, k);
    EventKeepsIdentity(p, rows[k], EventAt(p, s, a, rows, k));
    if a.By? {
      GrownIsUnique(p, s, a);
      StepKeepsCredit(p, s, a.i, a.step, rows, t, k, hot);
    }
  }

  lemma KeepsBudget(p: RetryPolicy, s: System, a: Action)
    requires PairsOk(s) && ProcsOk(s) && LogOk(s) && BudgetOk(s) && Enabled(p, s, a)
    ensures BudgetOk(Next(p, s, a))
  {
    var n := Next(p, s, a);
    forall k: nat, hot | k < |n.rows| ensures WithinCredit(n.log, n.rows[k], n.tallies[k], n.procs, k, hot) {
      if k < |s.rows| {
        NextRow(p, s, a, k);
        RowKeepsCredit(p, s, a, s.tallies[k], k, hot);
      } else {
        FreshWithinCredit(p, s, a, k, hot);
        RowKeepsCredit(p, s, a, NOTHING, k, hot);
      }
    }
  }

  // ----- the invariant, and what it means

  ghost predicate Inv(p: RetryPolicy, s: System) {
    PairsOk(s) && ProcsOk(s) && RowsOk(p, s) && LogOk(s) && BudgetOk(s)
  }

  lemma InitialInv(p: RetryPolicy, s: System)
    requires IsInitial(s)
    ensures Inv(p, s)
  {
  }

  lemma StepKeepsInv(p: RetryPolicy, s: System, a: Action)
    requires 1 <= p.maxAttempts && Inv(p, s) && Enabled(p, s, a)
    ensures Inv(p, Next(p, s, a))
  {
    KeepsPairs(p, s, a);
    KeepsProcs(p, s, a);
    KeepsRows(p, s, a);
    KeepsLog(p, s, a);
    KeepsBudget(p, s, a);
  }

  lemma TakenStepKeepsInv(p: RetryPolicy, s: System, a: Action, t: System)
    requires 1 <= p.maxAttempts && Inv(p, s) && Takes(p, s, a, t)
    ensures Inv(p, t)
  {
    StepKeepsInv(p, s, a);
  }

  lemma RunStepKeepsInv(p: RetryPolicy, states: seq<System>, actions: seq<Action>, n: nat)
    requires 1 <= p.maxAttempts && IsRun(p, states, actions) && n < |actions| && Inv(p, states[n])
    ensures Inv(p, states[n + 1])
  {
    RunTakes(p, states, actions, n);
    TakenStepKeepsInv(p, states[n], actions[n], states[n + 1]);
  }

  lemma {:induction false} InvStays(p: RetryPolicy, states: seq<System>, actions: seq<Action>, n: nat)
    requires 1 <= p.maxAttempts && IsRun(p, states, actions) && Inv(p, states[0]) && n <= |actions|
    ensures Inv(p, states[n])
  {
    if n > 0 {
      InvStays(p, states, actions, n - 1);
      RunStepKeepsInv(p, states, actions, n - 1);
    }
  }

  lemma RunKeepsInv(p: RetryPolicy, states: seq<System>, actions: seq<Action>, n: nat)
    requires 1 <= p.maxAttempts && IsRun(p, states, actions) && IsInitial(states[0]) && n <= |actions|
    ensures Inv(p, states[n])
  {
    InitialInv(p, states[0]);
    InvStays(p, states, actions, n);
  }

  lemma ExtendsIsTransitive(s: System, t: System, u: System)
    requires Extends(s, t) && Extends(t, u)
    ensures Extends(s, u)
  {
    forall k | 0 <= k < |s.rows| ensures SameIdentity(s.rows[k], u.rows[k]) {
      assert SameIdentity(s.rows[k], t.rows[k]) && SameIdentity(t.rows[k], u.rows[k]);
    }
  }

  lemma ExtendsItself(s: System)
    ensures Extends(s, s)
  {
  }

  lemma RunStepExtends(p: RetryPolicy, states: seq<System>, actions: seq<Action>, n: nat)
    requires IsRun(p, states, actions) && n < |actions|
    ensures Extends(states[n], states[n + 1])
  {
    RunTakes(p, states, actions, n);
    NextExtends(p, states[n], actions[n]);
  }

  lemma {:induction false} RunExtends(p: RetryPolicy, states: seq<System>, actions: seq<Action>, m: nat, n: nat)
    requires IsRun(p, states, actions) && m <= n <= |actions|
    ensures Extends(states[m], states[n])
  {
    if m < n {
      RunExtends(p, states, actions, m, n - 1);
      RunStepExtends(p, states, actions, n - 1);
      ExtendsIsTransitive(states[m], states[n - 1], states[n]);
    } else {
      ExtendsItself(states[m]);
    }
  }

  /** Once committed, a pair has exactly one record, in every later state of every run. */
  lemma CommittedPairHasOneRecord(p: RetryPolicy, states: seq<System>, actions: seq<Action>, m: nat, n: nat, pair: Pair)
      returns (k: nat)
    requires 1 <= p.maxAttempts && IsRun(p, states, actions) && IsInitial(states[0]) && m <= n <= |actions|
    requires pair in states[m].committed
    ensures k < |states[m].rows| <= |states[n].rows|
    ensures states[m].rows[k].IsFor(pair.0, pair.1)
    ensures forall j :: 0 <= j < |states[n].rows| ==> (states[n].rows[j].IsFor(pair.0, pair.1) <==> j == k)
  {
    RunKeepsInv(p, states, actions, m);
    RunKeepsInv(p, states, actions, n);
    RunExtends(p, states, actions, m, n);
    k :| 0 <= k < |states[m].rows| && states[m].rows[k].IsFor(pair.0, pair.1);
    assert SameIdentity(states[m].rows[k], states[n].rows[k]);
  }

  /** No consumer is called for an event that is not yet stored. */
  lemma CallsFollowCommits(p: RetryPolicy, states: seq<System>, actions: seq<Action>, n: nat, i: nat)
    requires 1 <= p.maxAttempts && IsRun(p, states, actions) && IsInitial(states[0]) && n < |actions|
    requires actions[n] == By(i, Start)
    ensures i < |states[n].procs| && states[n].procs[i].Delivering? && states[n].procs[i].todo != []
    ensures var proc := states[n].procs[i];
            && proc.todo[0] < |states[n].rows|
            && states[n].rows[proc.todo[0]].event in states[n].events
  {
    RunKeepsInv(p, states, actions, n);
    RunTakes(p, states, actions, n);
    assert ProcOk(states[n], states[n].procs[i]);
  }

  /** DELIVERED: a call of that consumer for that event returned normally. */
  lemma DeliveredMeansReturned(p: RetryPolicy, states: seq<System>, actions: seq<Action>, n: nat, k: nat)
    requires 1 <= p.maxAttempts && IsRun(p, states, actions) && IsInitial(states[0]) && n <= |actions|
    requires k < |states[n].rows| && states[n].rows[k].state == Delivered
    ensures Finished(states[n].rows[k].event, states[n].rows[k].consumer, true) in states[n].log
  {
    RunKeepsInv(p, states, actions, n);
    assert HasReturned(states[n], k);
  }

  /**
   * Attempts stay within max_attempts plus the requeues of unregistered consumers; recovery
   * passes call at most max_attempts times per record and administrative reset; the hot path
   * adds one call per commit that names the pair.
   */
  lemma AttemptsAreBounded(p: RetryPolicy, states: seq<System>, actions: seq<Action>, n: nat, k: nat)
    requires 1 <= p.maxAttempts && IsRun(p, states, actions) && IsInitial(states[0]) && n <= |actions|
    requires k < |states[n].rows|
    ensures |states[n].tallies| == |states[n].rows|
    ensures states[n].rows[k].attempts <= p.maxAttempts + states[n].tallies[k].requeues
    ensures Starts(states[n].log, states[n].rows[k].event, states[n].rows[k].consumer, false)
            <= p.maxAttempts + states[n].tallies[k].resets * p.maxAttempts
    ensures Starts(states[n].log, states[n].rows[k].event, states[n].rows[k].consumer, true)
            <= states[n].tallies[k].offers
  {
    RunKeepsInv(p, states, actions, n);
    var s := states[n];
    assert RowOk(p, s.rows[k], s.tallies[k], s.clock);
    assert WithinCredit(s.log, s.rows[k], s.tallies[k], s.procs, k, false);
    assert WithinCredit(s.log, s.rows[k], s.tallies[k], s.procs, k, true);
  }

  /** FAILED carries a due time at most 60 s away; whatever is not terminal is due for a claim or for retirement. */
  lemma NoRecordIsStuck(p: RetryPolicy, states: seq<System>, actions: seq<Action>, n: nat, k: nat, now: real)
    requires 1 <= p.maxAttempts && IsRun(p, states, actions) && IsInitial(states[0]) && n <= |actions|
    requires k < |states[n].rows| && IsLater(p, states[n].clock, now)
    ensures var r := states[n].rows[k];
            && (r.state == Failed ==>
                  r.attempts < p.maxAttempts && r.nextAttemptAt.Some?
                      && r.nextAttemptAt.value <= states[n].clock + BACKOFF_CAP)
            && (r.IsTerminal() || IsEligible(p, r, now) || IsExhausted(p, r, now))
            && (r.IsTerminal() ==> r.nextAttemptAt.None? && !IsEligible(p, r, now))
  {
    RunKeepsInv(p, states, actions, n);
    var s := states[n];
    assert RowOk(p, s.rows[k], s.tallies[k], s.clock);
    NeverStuck(p, s.rows[k], s.clock, now);
  }

  /** The table of any reachable state is one the recovery passes bring to rest. */
  lemma ReachableTablesFit(p: RetryPolicy, states: seq<System>, actions: seq<Action>, n: nat)
    requires 1 <= p.maxAttempts && IsRun(p, states, actions) && IsInitial(states[0]) && n <= |actions|
    ensures UniquePairs(states[n].rows) && Fits(p, states[n].rows, states[n].clock)
  {
    RunKeepsInv(p, states, actions, n);
    var s := states[n];
    forall k | 0 <= k < |s.rows| ensures RowFits(p, s.rows[k], s.clock) {
      assert RowOk(p, s.rows[k], s.tallies[k], s.clock);
    }
  }

  /** What a claim returns is in creation order, however others interfered. */
  lemma ClaimsAreOldestFirst(p: RetryPolicy, states: seq<System>, actions: seq<Action>, n: nat, i: nat)
    requires 1 <= p.maxAttempts && IsRun(p, states, actions) && IsInitial(states[0]) && n < |actions|
    requires actions[n] == By(i, ClaimsDone)
    ensures i < |states[n].procs| == |states[n + 1].procs|
    ensures states[n].procs[i].Claiming? && OldestFirst(states[n].rows, states[n].procs[i].won)
    ensures states[n + 1].procs[i] == Delivering(states[n].procs[i].won, false)
  {
    RunKeepsInv(p, states, actions, n);
    RunTakes(p, states, actions, n);
    var proc := states[n].procs[i];
    assert ProcOk(states[n], proc) && proc.won + [] == proc.won;
  }

  // ----- exclusive claims

  /** The action wins row k for a process whose claim began at `now`. */
  ghost predicate WinsRow(p: RetryPolicy, s: System, a: Action, k: nat, now: real) {
    && a.By? && a.step.ClaimNext? && Enabled(p, s, a)
    && k < |s.rows| && EventAt(p, s, a, s.rows, k) == ClaimedAt(now)
  }

  /** The action marks or resets row k. */
  ghost predicate WritesRow(p: RetryPolicy, s: System, a: Action, k: nat) {
    && Enabled(p, s, a) && k < |Grown(s, a)|
    && (EventAt(p, s, a, Grown(s, a), k).Marking? || EventAt(p, s, a, Grown(s, a), k).ResetAt?)
  }

  predicate StillClaimed(r: Record, since: real) {
    r.state == DeadLetter || (r.state == InFlight && r.updatedAt >= since)
  }

  lemma UnwrittenStaysClaimed(p: RetryPolicy, r: Record, ev: RowEvent, since: real)
    requires 0.0 <= p.staleLease && StillClaimed(r, since)
    requires !ev.Marking? && !ev.ResetAt? && (ev.ClaimedAt? ==> IsEligible(p, r, ev.now))
    ensures StillClaimed(Touched(p, r, ev), since)
  {
    if ev.RetiredAt? {
      assert Retired(p, r, ev.now) == r || Retired(p, r, ev.now).state == DeadLetter;
    }
  }

  lemma ClaimEventsAreEligible(p: RetryPolicy, s: System, a: Action, k: nat)
    requires Enabled(p, s, a) && k < |Grown(s, a)|
    ensures var ev := EventAt(p, s, a, Grown(s, a), k);
            ev.ClaimedAt? ==> IsEligible(p, Grown(s, a)[k], ev.now)
  {
  }

  /** No mark and no reset of row k from state i to state j. */
  ghost predicate Unwritten(p: RetryPolicy, states: seq<System>, actions: seq<Action>, i: nat, j: nat, k: nat)
    requires |states| == |actions| + 1 && j <= |actions|
  {
    forall m {:trigger WritesRow(p, states[m], actions[m], k)} :: i <= m < j ==> !WritesRow(p, states[m], actions[m], k)
  }

  lemma RunStepKeepsClaimed(p: RetryPolicy, states: seq<System>, actions: seq<Action>, i: nat, j: nat, m: nat, k: nat,
                            since: real)
    requires 0.0 <= p.staleLease && IsRun(p, states, actions) && i <= m < j <= |actions|
    requires Unwritten(p, states, actions, i, j, k)
    requires k < |states[m].rows| && StillClaimed(states[m].rows[k], since)
    ensures k < |states[m + 1].rows| && StillClaimed(states[m + 1].rows[k], since)
  {
    RunTakes(p, states, actions, m);
    StepKeepsClaimed(p, states[m], actions[m], states[m + 1], k, since);
  }

  lemma {:induction false} StaysClaimed(p: RetryPolicy, states: seq<System>, actions: seq<Action>, i: nat, j: nat,
                                        m: nat, k: nat, since: real)
    requires 0.0 <= p.staleLease && IsRun(p, states, actions) && i <= m <= j <= |actions|
    requires Unwritten(p, states, actions, i, j, k)
    requires k < |states[i].rows| && StillClaimed(states[i].rows[k], since)
    ensures k < |states[m].rows| && StillClaimed(states[m].rows[k], since)
  {
    if i < m {
      StaysClaimed(p, states, actions, i, j, m - 1, k, since);
      RunStepKeepsClaimed(p, states, actions, i, j, m - 1, k, since);
    }
  }

  lemma WinnerIsClaimed(p: RetryPolicy, s: System, a: Action, t: System, k: nat, now: real)
    requires Takes(p, s, a, t) && WinsRow(p, s, a, k, now)
    ensures k < |t.rows| && StillClaimed(t.rows[k], now)
  {
    assert Grown(s, a) == s.rows;
    NextRow(p, s, a, k);
  }

  lemma StepKeepsClaimed(p: RetryPolicy, s: System, a: Action, t: System, k: nat, since: real)
    requires 0.0 <= p.staleLease && Takes(p, s, a, t)
    requires k < |s.rows| && StillClaimed(s.rows[k], since) && !WritesRow(p, s, a, k)
    ensures k < |t.rows| && StillClaimed(t.rows[k], since)
  {
    NextRow(p, s, a, k);
    ClaimEventsAreEligible(p, s, a, k);
    UnwrittenStaysClaimed(p, s.rows[k], EventAt(p, s, a, Grown(s, a), k), since);
  }

  lemma RunWinnerIsClaimed(p: RetryPolicy, states: seq<System>, actions: seq<Action>, i: nat, k: nat, now: real)
    requires IsRun(p, states, actions) && i < |actions| && WinsRow(p, states[i], actions[i], k, now)
    ensures k < |states[i + 1].rows| && StillClaimed(states[i + 1].rows[k], now)
  {
    RunTakes(p, states, actions, i);
    WinnerIsClaimed(p, states[i], actions[i], states[i + 1], k, now);
  }

  lemma WinnerStaysClaimed(p: RetryPolicy, states: seq<System>, actions: seq<Action>, i: nat, j: nat, k: nat, now: real)
    requires 0.0 <= p.staleLease && IsRun(p, states, actions) && i < j <= |actions|
    requires WinsRow(p, states[i], actions[i], k, now) && Unwritten(p, states, actions, i + 1, j, k)
    ensures k < |states[j].rows| && StillClaimed(states[j].rows[k], now)
  {
    RunWinnerIsClaimed(p, states, actions, i, k, now);
    StaysClaimed(p, states, actions, i + 1, j, j, k, now);
  }

  /**
   * Two claims win the same record without a mark in between only if the later one's clock
   * reading is more than a lease after the earlier one's.
   */
  lemma ClaimsAreExclusive(p: RetryPolicy, states: seq<System>, actions: seq<Action>, i: nat, j: nat, k: nat,
                           first: real, second: real)
    requires 0.0 <= p.staleLease && IsRun(p, states, actions) && i < j < |actions|
    requires WinsRow(p, states[i], actions[i], k, first) && WinsRow(p, states[j], actions[j], k, second)
    requires Unwritten(p, states, actions, i + 1, j, k)
    ensures second > first + p.staleLease
  {
    WinnerStaysClaimed(p, states, actions, i, j, k, first);
    WinNeedsExpiry(p, states[j], actions[j], k, first, second);
  }

  lemma WinNeedsExpiry(p: RetryPolicy, s: System, a: Action, k: nat, since: real, now: real)
    requires 0.0 <= p.staleLease && WinsRow(p, s, a, k, now) && StillClaimed(s.rows[k], since)
    ensures now > since + p.staleLease
  {
    assert Grown(s, a) == s.rows;
    ClaimEventsAreEligible(p, s, a, k);
  }
}
