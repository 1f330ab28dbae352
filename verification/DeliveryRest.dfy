/**
 * Terminal records among other processes: what reopens them, what keeps them, and how few
 * passes find anything left.
 */
module DeliveryRest {
  import opened Counting
  import opened Outbox
  import opened DeliveryProgress
  import opened DeliveryProtocol
  import opened DeliverySafety
  import opened DeliveryRuns
  import opened DeliveryChanges

  // ----- what moves a terminal record

  /**
   * A requeue, or a failure written while attempts are left, by a process at that record; or
   * an administrator's requeue.
   */
  predicate Reopens(p: RetryPolicy, s: System, a: Action, k: nat)
    requires k < |s.rows|
  {
    match a
    case AdminRequeue(row, _) => row == k
    case By(i, step) =>
      i < |s.procs| &&
      (match step
       case Requeue(_) => s.procs[i].Delivering? && s.procs[i].todo != [] && s.procs[i].todo[0] == k
       case LookupFail(_, _, _) =>
         && s.procs[i].Delivering? && s.procs[i].todo != [] && s.procs[i].todo[0] == k
         && s.rows[k].attempts < p.maxAttempts
       case Write(_, _) =>
         s.procs[i].Returned? && s.procs[i].row == k && !s.procs[i].ok && s.rows[k].attempts < p.maxAttempts
       case _ => false)
    case _ => false
  }

  /** Exactly which action turns a DELIVERED or DEAD_LETTER record into one that is neither. */
  lemma TerminalReopensIff(p: RetryPolicy, s: System, a: Action, n: System, k: nat)
    requires Takes(p, s, a, n) && k < |s.rows| && s.rows[k].IsTerminal()
    ensures k < |n.rows| && (!n.rows[k].IsTerminal() <==> Reopens(p, s, a, k))
  {
    NextRow(p, s, a, k);
  }

  /**
   * Exactly which action takes a record out of DEAD_LETTER: one that reopens it, or the late
   * mark of a call that returned.
   */
  lemma DeadLetterLeftIff(p: RetryPolicy, s: System, a: Action, n: System, k: nat)
    requires Takes(p, s, a, n) && k < |s.rows| && s.rows[k].state == DeadLetter
    ensures k < |n.rows|
    ensures n.rows[k].state != DeadLetter <==> Reopens(p, s, a, k) || WritesReturn(s, a, k)
  {
    NextRow(p, s, a, k);
  }

  predicate WritesReturn(s: System, a: Action, k: nat) {
    a.By? && a.step.Write? && a.i < |s.procs| && s.procs[a.i].Returned? && s.procs[a.i].row == k && s.procs[a.i].ok
  }

  /** A terminal record changes its state only by a process that still has it to write, or by an administrator. */
  lemma TerminalChangesOnlyBy(p: RetryPolicy, s: System, a: Action, n: System, k: nat)
    requires Takes(p, s, a, n) && k < |s.rows| && s.rows[k].IsTerminal()
    requires k < |n.rows| && n.rows[k].state != s.rows[k].state
    ensures match a
            case BuryRow(row, _, _) => row == k
            case AdminRequeue(row, _) => row == k
            case By(i, step) =>
              i < |s.procs| && (step.Write? || step.Requeue? || step.LookupFail?) && k in Open(s.procs[i])
            case _ => false
  {
    NextRow(p, s, a, k);
  }

  // ----- what makes it a dead letter

  /**
   * An administrator's burial, the retirement of an exhausted lease, or a failure written when
   * no attempts are left.
   */
  predicate Buries(p: RetryPolicy, s: System, a: Action, k: nat)
    requires k < |s.rows|
  {
    match a
    case BuryRow(row, _, _) => row == k
    case By(i, step) =>
      i < |s.procs| &&
      (match step
       case Retire(now) => IsExhausted(p, s.rows[k], now)
       case LookupFail(_, _, _) =>
         && s.procs[i].Delivering? && s.procs[i].todo != [] && s.procs[i].todo[0] == k
         && s.rows[k].attempts >= p.maxAttempts
       case Write(_, _) =>
         s.procs[i].Returned? && s.procs[i].row == k && !s.procs[i].ok && s.rows[k].attempts >= p.maxAttempts
       case _ => false)
    case _ => false
  }

  /** Exactly which action turns a record into a DEAD_LETTER. */
  lemma DeadLetterEnteredIff(p: RetryPolicy, s: System, a: Action, n: System, k: nat)
    requires Takes(p, s, a, n) && k < |s.rows| && s.rows[k].state != DeadLetter
    ensures k < |n.rows| && (n.rows[k].state == DeadLetter <==> Buries(p, s, a, k))
  {
    NextRow(p, s, a, k);
  }

  /** Unless an administrator buried it at some time, a DEAD_LETTER has used up its attempts. */
  predicate EarnedDeath(p: RetryPolicy, r: Record, t: Tally) {
    r.state == DeadLetter && t.buries == 0 ==> r.attempts >= p.maxAttempts
  }

  lemma EventEarnsDeath(p: RetryPolicy, r: Record, t: Tally, ev: RowEvent)
    requires EarnedDeath(p, r, t) && (ev.ClaimedAt? ==> r.state != DeadLetter)
    ensures EarnedDeath(p, Touched(p, r, ev), TallyAfter(t, ev))
  {
  }

  lemma StepEarnsDeath(p: RetryPolicy, s: System, a: Action, n: System, k: nat)
    requires Takes(p, s, a, n) && k < |n.rows| && (k < |s.rows| ==> EarnedDeath(p, s.rows[k], s.tallies[k]))
    ensures |n.tallies| == |n.rows| && EarnedDeath(p, n.rows[k], n.tallies[k])
  {
    NextRow(p, s, a, k);
    ClaimEventsAreEligible(p, s, a, k);
    FreshIsPending(s, a, k);
    EventEarnsDeath(p, Grown(s, a)[k], if k < |s.rows| then s.tallies[k] else NOTHING,
                    EventAt(p, s, a, Grown(s, a), k));
  }

  /** In every run, a record no administrator buried is given up only after max_attempts attempts. */
  lemma {:induction false} NeverBuriedEarly(p: RetryPolicy, states: seq<System>, actions: seq<Action>, n: nat, k: nat)
    requires IsRun(p, states, actions) && IsInitial(states[0]) && n <= |actions| && k < |states[n].rows|
    ensures |states[n].tallies| == |states[n].rows|
    ensures states[n].rows[k].state == DeadLetter && states[n].tallies[k].buries == 0 ==>
              states[n].rows[k].attempts >= p.maxAttempts
  {
    if n > 0 {
      if k < |states[n - 1].rows| {
        NeverBuriedEarly(p, states, actions, n - 1, k);
      }
      RunTakes(p, states, actions, n - 1);
      StepEarnsDeath(p, states[n - 1], actions[n - 1], states[n], k);
    }
  }

  // ----- what keeps it

  /** The record is terminal and no process has it to write. */
  predicate AtRest(s: System, k: nat) {
    k < |s.rows| && s.rows[k].IsTerminal() && Openings(s.procs, k) == 0
  }

  /** The record's event is committed again for its consumer, or an administrator requeues it. */
  ghost predicate Disturbs(s: System, a: Action, k: nat) {
    || (a.AdminRequeue? && a.row == k)
    || (a.By? && a.step.Commit? && k in HotRows(Grown(s, a), a.step.event, a.step.consumers))
  }

  lemma NobodyHasIt(s: System, i: nat, k: nat)
    requires Openings(s.procs, k) == 0 && i < |s.procs|
    ensures OpenOn(s.procs[i], k) == 0 && k !in Open(s.procs[i])
  {
    MemberOfSum(OpenCounts(s.procs, k), i);
    assert OpenCounts(s.procs, k)[i] == OpenOn(s.procs[i], k);
  }

  lemma RestStep(p: RetryPolicy, s: System, a: Action, n: System, k: nat)
    requires Takes(p, s, a, n) && AtRest(s, k) && !Disturbs(s, a, k)
    ensures AtRest(n, k)
  {
    NextRow(p, s, a, k);
    TerminalReopensIff(p, s, a, n, k);
    if a.By? {
      NobodyHasIt(s, a.i, k);
      RestOpensNothing(p, s, a, k);
      OpeningsUpdate(s.procs, a.i, ProcAfter(p, s, s.procs[a.i], a.step, Grown(s, a)), k);
    }
  }

  lemma RestOpensNothing(p: RetryPolicy, s: System, a: Action, k: nat)
    requires Enabled(p, s, a) && a.By? && AtRest(s, k) && !Disturbs(s, a, k)
    ensures OpenOn(ProcAfter(p, s, s.procs[a.i], a.step, Grown(s, a)), k) == 0
  {
    NobodyHasIt(s, a.i, k);
    assert Grown(s, a)[k] == s.rows[k];
    RestEarnsNothing(p, s, s.procs[a.i], a.step, Grown(s, a), k);
    OnlyClaimsAndOffersEarn(NOTHING, StepEvent(p, s, s.procs[a.i], a.step, Grown(s, a), k));
    StepOpens(p, s, s.procs[a.i], a.step, Grown(s, a), NOTHING, k);
  }

  predicate EarnsNothing(ev: RowEvent) {
    !ev.ClaimedAt? && (ev.Offered? ==> ev.times == 0)
  }

  /** A terminal record that is not offered is neither claimed nor offered. */
  lemma RestEarnsNothing(p: RetryPolicy, s: System, proc: Proc, step: Step, rows: seq<Record>, k: nat)
    requires StepEnabled(p, s, proc, step) && k < |rows| && rows[k].IsTerminal()
    requires step.Commit? ==> k !in HotRows(rows, step.event, step.consumers)
    ensures EarnsNothing(StepEvent(p, s, proc, step, rows, k))
  {
    if step.Commit? {
      NotOffered(p, s, proc, step, rows, k);
    } else {
      TerminalIsNotClaimed(p, s, proc, step, rows, k);
    }
  }

  lemma NotOffered(p: RetryPolicy, s: System, proc: Proc, step: Step, rows: seq<Record>, k: nat)
    requires StepEnabled(p, s, proc, step) && k < |rows|
    requires step.Commit? && k !in HotRows(rows, step.event, step.consumers)
    ensures StepEvent(p, s, proc, step, rows, k) == Offered(0)
  {
  }

  lemma TerminalIsNotClaimed(p: RetryPolicy, s: System, proc: Proc, step: Step, rows: seq<Record>, k: nat)
    requires StepEnabled(p, s, proc, step) && !step.Commit? && k < |rows| && rows[k].IsTerminal()
    ensures !StepEvent(p, s, proc, step, rows, k).ClaimedAt? && !StepEvent(p, s, proc, step, rows, k).Offered?
  {
  }

  lemma OnlyClaimsAndOffersEarn(t: Tally, ev: RowEvent)
    requires EarnsNothing(ev)
    ensures MarkCredit(TallyAfter(t, ev)) <= MarkCredit(t)
  {
  }

  lemma RunRestStep(p: RetryPolicy, states: seq<System>, actions: seq<Action>, n: nat, k: nat)
    requires IsRun(p, states, actions) && n < |actions| && AtRest(states[n], k) && !Disturbs(states[n], actions[n], k)
    ensures AtRest(states[n + 1], k)
  {
    RunTakes(p, states, actions, n);
    RestStep(p, states[n], actions[n], states[n + 1], k);
  }

  /** A terminal record that nobody has to write stays terminal, whatever everyone else does. */
  lemma {:induction false} RestIsFinal(p: RetryPolicy, states: seq<System>, actions: seq<Action>, m: nat,
                                       n: nat, k: nat)
    requires IsRun(p, states, actions) && m <= n <= |actions| && AtRest(states[m], k)
    requires Undisturbed(states, actions, m, n, k)
    ensures AtRest(states[n], k)
  {
    if m < n {
      RestIsFinal(p, states, actions, m, n - 1, k);
      assert !Disturbs(states[n - 1], actions[n - 1], k);
      RunRestStep(p, states, actions, n - 1, k);
    }
  }

  ghost predicate Undisturbed(states: seq<System>, actions: seq<Action>, m: nat, n: nat, k: nat)
    requires n <= |actions| < |states|
  {
    forall j {:trigger Disturbs(states[j], actions[j], k)} :: m <= j < n ==> !Disturbs(states[j], actions[j], k)
  }

  // ----- a stretch of a run in which no record changes

  ghost predicate Still(s: System, t: System) {
    |s.rows| <= |t.rows| && forall k :: 0 <= k < |s.rows| ==> t.rows[k] == s.rows[k]
  }

  ghost predicate StillAt(states: seq<System>, j: nat)
    requires j + 1 < |states|
  {
    Still(states[j], states[j + 1])
  }

  ghost predicate StillFrom(states: seq<System>, m: nat, n: nat)
    requires n < |states|
  {
    forall j {:trigger StillAt(states, j)} :: m <= j < n ==> StillAt(states, j)
  }

  lemma {:induction false} StillKeeps(states: seq<System>, m: nat, n: nat, a: nat, b: nat)
    requires m <= a <= b <= n < |states| && StillFrom(states, m, n)
    ensures Still(states[a], states[b])
  {
    if a < b {
      StillKeeps(states, m, n, a, b - 1);
      assert StillAt(states, b - 1);
    }
  }

  /** The claim phase of one pass inside a stretch: unfiltered, begun late enough after the stretch did. */
  datatype Window = Window(start: nat, end: nat, worker: nat, retire: nat, select: nat, done: nat)

  ghost predicate IsOther(a: Action, i: nat) {
    !a.By? || a.i != i
  }

  ghost predicate ClaimsWithin(p: RetryPolicy, states: seq<System>, actions: seq<Action>, w: Window) {
    && |states| == |actions| + 1
    && w.start <= w.retire < w.select < w.done < w.end <= |actions|
    && actions[w.retire].By? && actions[w.retire].i == w.worker && actions[w.retire].step.Retire?
    && IsLater(p, states[w.start].clock, actions[w.retire].step.now)
    && actions[w.select].By? && actions[w.select].i == w.worker && actions[w.select].step.Select?
    && 0 < actions[w.select].step.limit && actions[w.select].step.filter == {}
    && actions[w.done] == By(w.worker, ClaimsDone)
    && (forall j {:trigger actions[j]} :: w.retire < j < w.select ==> IsOther(actions[j], w.worker))
    && (forall j {:trigger actions[j]} :: w.select < j < w.done ==>
        IsOther(actions[j], w.worker) || actions[j] == By(w.worker, ClaimNext))
  }

  lemma OthersKeepProc(p: RetryPolicy, s: System, a: Action, n: System, i: nat)
    requires Takes(p, s, a, n) && i < |s.procs| && IsOther(a, i)
    ensures i < |n.procs| && n.procs[i] == s.procs[i]
  {
  }

  lemma {:induction false} ProcWaits(p: RetryPolicy, states: seq<System>, actions: seq<Action>, i: nat, m: nat, n: nat)
    requires IsRun(p, states, actions) && m <= n <= |actions| && i < |states[m].procs|
    requires forall j {:trigger actions[j]} :: m <= j < n ==> IsOther(actions[j], i)
    ensures i < |states[n].procs| && states[n].procs[i] == states[m].procs[i]
  {
    if m < n {
      ProcWaits(p, states, actions, i, m, n - 1);
      RunOthersKeepProc(p, states, actions, n - 1, i);
    }
  }

  lemma RunOthersKeepProc(p: RetryPolicy, states: seq<System>, actions: seq<Action>, n: nat, i: nat)
    requires IsRun(p, states, actions) && n < |actions| && i < |states[n].procs| && IsOther(actions[n], i)
    ensures i < |states[n + 1].procs| && states[n + 1].procs[i] == states[n].procs[i]
  {
    RunTakes(p, states, actions, n);
    OthersKeepProc(p, states[n], actions[n], states[n + 1], i);
  }

  /** The first step of process i in [m, n), or n. */
  ghost function NextStepOf(actions: seq<Action>, i: nat, m: nat, n: nat): (at: nat)
    requires m <= n <= |actions|
    ensures m <= at <= n
    ensures forall j :: m <= j < at ==> IsOther(actions[j], i)
    ensures at < n ==> !IsOther(actions[at], i)
    decreases n - m
  {
    if m == n || !IsOther(actions[m], i) then m else NextStepOf(actions, i, m + 1, n)
  }

  lemma RetireMoves(p: RetryPolicy, s: System, i: nat, now: real, n: System)
    requires Takes(p, s, By(i, Retire(now)), n)
    ensures i < |n.procs| && n.procs[i] == Selecting(now)
    ensures forall k :: 0 <= k < |s.rows| && IsExhausted(p, s.rows[k], now) ==> k < |n.rows| && n.rows[k] != s.rows[k]
  {
    forall k | 0 <= k < |s.rows| && IsExhausted(p, s.rows[k], now) ensures k < |n.rows| && n.rows[k] != s.rows[k] {
      NextRow(p, s, By(i, Retire(now)), k);
    }
  }

  lemma SelectMoves(p: RetryPolicy, s: System, i: nat, step: Step, n: System)
    requires Takes(p, s, By(i, step), n) && step.Select? && i < |s.procs| && s.procs[i].Selecting?
    ensures i < |n.procs| && n.procs[i] == Claiming(s.procs[i].now, step.candidates, [])
    ensures IsSelection(p, s.rows, s.procs[i].now, step.limit, step.filter, step.candidates)
  {
  }

  /** A claim step either changes its record or finds it no longer claimable. */
  lemma ClaimMoves(p: RetryPolicy, s: System, i: nat, n: System)
    requires Takes(p, s, By(i, ClaimNext), n)
    ensures i < |s.procs| && s.procs[i].Claiming? && s.procs[i].todo != []
    ensures var k := s.procs[i].todo[0];
            k < |s.rows| && IsEligible(p, s.rows[k], s.procs[i].now) ==> k < |n.rows| && n.rows[k] != s.rows[k]
  {
    var k := s.procs[i].todo[0];
    if k < |s.rows| {
      NextRow(p, s, By(i, ClaimNext), k);
    }
  }

  lemma DoneMeansAllTried(p: RetryPolicy, s: System, i: nat, n: System)
    requires Takes(p, s, By(i, ClaimsDone), n)
    ensures i < |s.procs| && s.procs[i].Claiming? && s.procs[i].todo == []
  {
  }

  /** Where the window's process stands when it selects and right after. */
  lemma WindowSelects(p: RetryPolicy, states: seq<System>, actions: seq<Action>, w: Window)
    requires IsRun(p, states, actions) && ClaimsWithin(p, states, actions, w)
    ensures var now, select := actions[w.retire].step.now, actions[w.select].step;
            && w.worker < |states[w.select + 1].procs|
            && states[w.select + 1].procs[w.worker] == Claiming(now, select.candidates, [])
            && IsSelection(p, states[w.select].rows, now, select.limit, {}, select.candidates)
  {
    WindowWaits(p, states, actions, w);
    RunTakes(p, states, actions, w.select);
    SelectMoves(p, states[w.select], w.worker, actions[w.select].step, states[w.select + 1]);
  }

  /** From its retirement to its selection the process keeps the clock reading it began with. */
  lemma WindowWaits(p: RetryPolicy, states: seq<System>, actions: seq<Action>, w: Window)
    requires IsRun(p, states, actions) && ClaimsWithin(p, states, actions, w)
    ensures w.worker < |states[w.select].procs|
    ensures states[w.select].procs[w.worker] == Selecting(actions[w.retire].step.now)
  {
    RunTakes(p, states, actions, w.retire);
    RetireMoves(p, states[w.retire], w.worker, actions[w.retire].step.now, states[w.retire + 1]);
    ProcWaits(p, states, actions, w.worker, w.retire + 1, w.select);
  }

  /**
   * What the process's next step after the selection tells, at position f: nothing was
   * selected, or a record changed.
   */
  lemma NextStepTells(p: RetryPolicy, s: System, a: Action, n: System, i: nat, now: real, candidates: seq<nat>)
    requires Takes(p, s, a, n) && (a == By(i, ClaimNext) || a == By(i, ClaimsDone))
    requires i < |s.procs| && s.procs[i] == Claiming(now, candidates, [])
    requires forall j :: 0 <= j < |candidates| ==> candidates[j] < |s.rows| && IsEligible(p, s.rows[candidates[j]], now)
    ensures candidates == [] || !Still(s, n)
  {
    if a == By(i, ClaimNext) {
      ClaimMoves(p, s, i, n);
    } else {
      DoneMeansAllTried(p, s, i, n);
    }
  }

  lemma StillEligible(p: RetryPolicy, s: System, t: System, now: real, limit: nat, candidates: seq<nat>)
    requires IsSelection(p, s.rows, now, limit, {}, candidates) && Still(s, t)
    ensures forall j :: 0 <= j < |candidates| ==> candidates[j] < |t.rows| && IsEligible(p, t.rows[candidates[j]], now)
  {
  }

  lemma NextStepInWindow(p: RetryPolicy, states: seq<System>, actions: seq<Action>, w: Window, f: nat)
    requires ClaimsWithin(p, states, actions, w)
    requires f == NextStepOf(actions, w.worker, w.select + 1, w.done)
    ensures actions[f] == By(w.worker, ClaimNext) || actions[f] == By(w.worker, ClaimsDone)
  {
  }

  /** If no record changes, there was nothing to select. */
  lemma StillSelectsNothing(p: RetryPolicy, states: seq<System>, actions: seq<Action>, w: Window)
    requires IsRun(p, states, actions) && ClaimsWithin(p, states, actions, w) && StillFrom(states, w.start, w.end)
    ensures actions[w.select].step.candidates == []
  {
    var now, select := actions[w.retire].step.now, actions[w.select].step;
    WindowSelects(p, states, actions, w);
    var f := NextStepOf(actions, w.worker, w.select + 1, w.done);
    ProcWaits(p, states, actions, w.worker, w.select + 1, f);
    NextStepInWindow(p, states, actions, w, f);
    RunTakes(p, states, actions, f);
    StillKeeps(states, w.start, w.end, w.select, f);
    StillKeeps(states, w.start, w.end, f, f + 1);
    StillEligible(p, states[w.select], states[f], now, select.limit, select.candidates);
    NextStepTells(p, states[f], actions[f], states[f + 1], w.worker, now, select.candidates);
  }

  lemma NothingSelectedIsNothingDue(p: RetryPolicy, rows: seq<Record>, now: real, limit: nat, k: nat)
    requires IsSelection(p, rows, now, limit, {}, []) && 0 < limit && k < |rows|
    ensures !IsEligible(p, rows[k], now)
  {
    assert Wanted({}, rows[k]);
  }

  /** In a stretch with a claim phase in which no record changes, every record was terminal. */
  lemma StillIsAtRest(p: RetryPolicy, states: seq<System>, actions: seq<Action>, w: Window, k: nat)
    requires IsRun(p, states, actions) && ClaimsWithin(p, states, actions, w) && StillFrom(states, w.start, w.end)
    requires Inv(p, states[w.start]) && k < |states[w.start].rows|
    ensures states[w.start].rows[k].IsTerminal()
  {
    var now := actions[w.retire].step.now;
    WindowSelects(p, states, actions, w);
    StillSelectsNothing(p, states, actions, w);
    StillKeeps(states, w.start, w.end, w.start, w.select);
    NothingSelectedIsNothingDue(p, states[w.select].rows, now, actions[w.select].step.limit, k);
    StillIsNotExhausted(p, states, actions, w, k);
    assert RowOk(p, states[w.start].rows[k], states[w.start].tallies[k], states[w.start].clock);
    NeverStuck(p, states[w.start].rows[k], states[w.start].clock, now);
  }

  lemma StillIsNotExhausted(p: RetryPolicy, states: seq<System>, actions: seq<Action>, w: Window, k: nat)
    requires IsRun(p, states, actions) && ClaimsWithin(p, states, actions, w) && StillFrom(states, w.start, w.end)
    requires k < |states[w.start].rows|
    ensures !IsExhausted(p, states[w.start].rows[k], actions[w.retire].step.now)
  {
    StillKeeps(states, w.start, w.end, w.start, w.retire);
    StillKeeps(states, w.start, w.end, w.retire, w.retire + 1);
    RunTakes(p, states, actions, w.retire);
    StillRetiresNothing(p, states[w.retire], w.worker, actions[w.retire].step.now, states[w.retire + 1], k);
  }

  lemma StillRetiresNothing(p: RetryPolicy, s: System, i: nat, now: real, n: System, k: nat)
    requires Takes(p, s, By(i, Retire(now)), n) && Still(s, n) && k < |s.rows|
    ensures !IsExhausted(p, s.rows[k], now)
  {
    RetireMoves(p, s, i, now, n);
  }

  // ----- how few stretches find anything to do

  function Weights(tallies: seq<Tally>): (weights: seq<nat>)
    ensures |weights| == |tallies|
  {
    seq(|tallies|, k requires 0 <= k < |tallies| => Weight(tallies[k]))
  }

  /** All that has happened to the table. */
  function Activity(s: System): nat {
    Sum(Weights(s.tallies))
  }

  lemma ActivityGrows(p: RetryPolicy, s: System, a: Action, n: System)
    requires Takes(p, s, a, n)
    ensures Activity(s) <= Activity(n)
    ensures !Still(s, n) ==> Activity(s) < Activity(n)
  {
    var before, after := Weights(s.tallies), Weights(n.tallies);
    assert |s.tallies| <= |n.tallies| == |n.rows|;
    forall k | 0 <= k < |before| ensures before[k] <= after[k] && (n.rows[k] != s.rows[k] ==> before[k] < after[k]) {
      RowChangeWeighs(p, s, a, n, k);
    }
    SumGrows(before, after);
  }

  lemma RunActivityGrows(p: RetryPolicy, states: seq<System>, actions: seq<Action>, n: nat)
    requires IsRun(p, states, actions) && n < |actions|
    ensures Activity(states[n]) <= Activity(states[n + 1])
    ensures !Still(states[n], states[n + 1]) ==> Activity(states[n]) < Activity(states[n + 1])
  {
    RunTakes(p, states, actions, n);
    ActivityGrows(p, states[n], actions[n], states[n + 1]);
  }

  lemma {:induction false} StretchActivity(p: RetryPolicy, states: seq<System>, actions: seq<Action>, m: nat, n: nat)
    requires IsRun(p, states, actions) && m <= n <= |actions|
    ensures Activity(states[m]) <= Activity(states[n])
    ensures !StillFrom(states, m, n) ==> Activity(states[m]) < Activity(states[n])
  {
    if m < n {
      StretchActivity(p, states, actions, m, n - 1);
      RunActivityGrows(p, states, actions, n - 1);
      StillExtends(states, m, n);
    }
  }

  lemma StillExtends(states: seq<System>, m: nat, n: nat)
    requires m < n < |states|
    ensures StillFrom(states, m, n - 1) && Still(states[n - 1], states[n]) ==> StillFrom(states, m, n)
  {
    assert StillAt(states, n - 1) <==> Still(states[n - 1], states[n]);
  }

  /** Stretches one after the other, each with a claim phase of some process in it. */
  ghost predicate AreWindows(p: RetryPolicy, states: seq<System>, actions: seq<Action>, windows: seq<Window>) {
    && (forall j :: 0 <= j < |windows| ==> ClaimsWithin(p, states, actions, windows[j]))
    && (forall i, j :: 0 <= i < j < |windows| ==> windows[i].end <= windows[j].start)
  }

  /** How many of them began with a record that was not terminal. */
  ghost function Unsettled(states: seq<System>, windows: seq<Window>): nat
    requires forall j :: 0 <= j < |windows| ==> windows[j].start < |states|
  {
    if windows == [] then 0
    else
      var n := |windows| - 1;
      Unsettled(states, windows[..n]) + if AllTerminal(states[windows[n].start].rows) then 0 else 1
  }

  function EndOfWindows(windows: seq<Window>): nat {
    if windows == [] then 0 else windows[|windows| - 1].end
  }

  lemma {:induction false} UnsettledIsActive(p: RetryPolicy, states: seq<System>, actions: seq<Action>,
                                             windows: seq<Window>)
    requires 1 <= p.maxAttempts && IsRun(p, states, actions) && IsInitial(states[0])
    requires AreWindows(p, states, actions, windows)
    ensures EndOfWindows(windows) <= |actions|
    ensures Unsettled(states, windows) <= Activity(states[EndOfWindows(windows)])
  {
    if windows != [] {
      var n := |windows| - 1;
      var w := windows[n];
      UnsettledIsActive(p, states, actions, windows[..n]);
      assert EndOfWindows(windows[..n]) <= w.start;
      StretchActivity(p, states, actions, EndOfWindows(windows[..n]), w.start);
      StretchActivity(p, states, actions, w.start, w.end);
      WindowSettles(p, states, actions, w);
    }
  }

  lemma WindowSettles(p: RetryPolicy, states: seq<System>, actions: seq<Action>, w: Window)
    requires 1 <= p.maxAttempts && IsRun(p, states, actions) && IsInitial(states[0])
             && ClaimsWithin(p, states, actions, w)
    ensures StillFrom(states, w.start, w.end) ==> AllTerminal(states[w.start].rows)
  {
    RunKeepsInv(p, states, actions, w.start);
    if StillFrom(states, w.start, w.end) {
      forall k | 0 <= k < |states[w.start].rows| ensures states[w.start].rows[k].IsTerminal() {
        StillIsAtRest(p, states, actions, w, k);
      }
    }
  }

  function ChangeBounds(p: RetryPolicy, tallies: seq<Tally>): (bounds: seq<nat>)
    ensures |bounds| == |tallies|
  {
    seq(|tallies|, k requires 0 <= k < |tallies| => ChangeBound(p, tallies[k]))
  }

  lemma ActivityIsBounded(p: RetryPolicy, s: System)
    requires ChangeInv(p, s)
    ensures Activity(s) <= Sum(ChangeBounds(p, s.tallies))
  {
    forall k | 0 <= k < |s.tallies| ensures Weights(s.tallies)[k] <= ChangeBounds(p, s.tallies)[k] {
      WeightIsBounded(p, s, k);
    }
    SumGrows(Weights(s.tallies), ChangeBounds(p, s.tallies));
  }

  /**
   * Among other pipelines, dispatchers, administrators and crashes: of any number of spaced
   * claim phases, all but a bounded number begin with every record DELIVERED or DEAD_LETTER.
   * The bound counts per record what its attempts, requeues and offers allow.
   */
  lemma AllButFewPassesFindRest(p: RetryPolicy, states: seq<System>, actions: seq<Action>, windows: seq<Window>)
    requires 1 <= p.maxAttempts && IsRun(p, states, actions) && IsInitial(states[0])
    requires AreWindows(p, states, actions, windows)
    ensures Unsettled(states, windows) <= Sum(ChangeBounds(p, states[|actions|].tallies))
  {
    UnsettledIsActive(p, states, actions, windows);
    StretchActivity(p, states, actions, EndOfWindows(windows), |actions|);
    RunKeepsChangeInv(p, states, actions, |actions|);
    ActivityIsBounded(p, states[|actions|]);
  }

  lemma {:induction false} SomeWindowIsSettled(states: seq<System>, windows: seq<Window>) returns (j: nat)
    requires forall i :: 0 <= i < |windows| ==> windows[i].start < |states|
    requires Unsettled(states, windows) < |windows|
    ensures j < |windows| && AllTerminal(states[windows[j].start].rows)
  {
    var n := |windows| - 1;
    if AllTerminal(states[windows[n].start].rows) {
      j := n;
    } else {
      j := SomeWindowIsSettled(states, windows[..n]);
    }
  }

  /**
   * More spaced claim phases than the bound: at the start of one of them every record is
   * terminal, and those that no process then has to write stay so as long as nobody commits
   * their event again or requeues them by hand.
   */
  lemma InterleavedPassesSettle(p: RetryPolicy, states: seq<System>, actions: seq<Action>, windows: seq<Window>)
    returns (at: nat)
    requires 1 <= p.maxAttempts && IsRun(p, states, actions) && IsInitial(states[0])
    requires AreWindows(p, states, actions, windows)
    requires |windows| > Sum(ChangeBounds(p, states[|actions|].tallies))
    ensures at <= |actions| && AllTerminal(states[at].rows)
    ensures forall k: nat, n: nat ::
              (at <= n <= |actions| && k < |states[at].rows| && Openings(states[at].procs, k) == 0
               && Undisturbed(states, actions, at, n, k)) ==> AtRest(states[n], k)
  {
    AllButFewPassesFindRest(p, states, actions, windows);
    var j := SomeWindowIsSettled(states, windows);
    at := windows[j].start;
    RestFrom(p, states, actions, at);
  }

  lemma RestFrom(p: RetryPolicy, states: seq<System>, actions: seq<Action>, at: nat)
    requires IsRun(p, states, actions) && at <= |actions| && AllTerminal(states[at].rows)
    ensures forall k: nat, n: nat ::
              (at <= n <= |actions| && k < |states[at].rows| && Openings(states[at].procs, k) == 0
               && Undisturbed(states, actions, at, n, k)) ==> AtRest(states[n], k)
  {
    forall k: nat, n: nat
      | at <= n <= |actions| && k < |states[at].rows| && Openings(states[at].procs, k) == 0
        && Undisturbed(states, actions, at, n, k)
      ensures AtRest(states[n], k)
    {
      RestIsFinal(p, states, actions, at, n, k);
    }
  }

  // ----- with every consumer registered

  /** Nobody requeues: consumers are registered, and administrators keep away. */
  ghost predicate WithoutRequeues(actions: seq<Action>) {
    forall j {:trigger actions[j]} :: 0 <= j < |actions| ==>
      !actions[j].AdminRequeue? && !actions[j].BuryRow? && !(actions[j].By? && actions[j].step.Requeue?)
  }

  predicate IsPlain(t: Tally) {
    t.requeues == t.resets == t.buries == 0
  }

  lemma PlainStepTally(p: RetryPolicy, s: System, a: Action, n: System, k: nat)
    requires Takes(p, s, a, n) && k < |n.rows| && (k < |s.rows| ==> IsPlain(s.tallies[k]))
    requires !a.AdminRequeue? && !a.BuryRow? && !(a.By? && a.step.Requeue?)
    ensures |n.tallies| == |n.rows| && IsPlain(n.tallies[k])
  {
    NextRow(p, s, a, k);
  }

  lemma {:induction false} WithoutRequeuesIsPlain(p: RetryPolicy, states: seq<System>, actions: seq<Action>,
                                                  n: nat, k: nat)
    requires IsRun(p, states, actions) && IsInitial(states[0]) && WithoutRequeues(actions) && n <= |actions|
    requires k < |states[n].rows|
    ensures |states[n].tallies| == |states[n].rows| && IsPlain(states[n].tallies[k])
  {
    if n > 0 {
      if k < |states[n - 1].rows| {
        WithoutRequeuesIsPlain(p, states, actions, n - 1, k);
      }
      RunTakes(p, states, actions, n - 1);
      PlainStepTally(p, states[n - 1], actions[n - 1], states[n], k);
    }
  }

  /** Without requeues a record changes at most three times per attempt, and once per offer of the hot path. */
  lemma ChangesWithoutRequeues(p: RetryPolicy, states: seq<System>, actions: seq<Action>, n: nat, k: nat)
    requires 1 <= p.maxAttempts && IsRun(p, states, actions) && IsInitial(states[0]) && n <= |actions|
    requires WithoutRequeues(actions) && k < |states[n].rows|
    ensures k < |states[n].tallies| && Changes(states, n, k) <= 3 * p.maxAttempts + states[n].tallies[k].offers
  {
    RecordChangesAreBounded(p, states, actions, n, k);
    WithoutRequeuesIsPlain(p, states, actions, n, k);
    assert states[n].tallies[k].resets * p.maxAttempts == 0;
  }
}
