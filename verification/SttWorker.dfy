/**
 * The transcription worker of backend/app/audio/stt_worker.py: start, stop and submit from any
 * thread, and the worker's own loop, each cut at its lock-protected sections.
 */
module Stt {
  import opened Common

  type JobId = string

  /**
   * Where a worker thread is: testing the stop flag, waiting on the queue, holding a job not yet
   * counted in flight, working on it, or done with it but still counted. `dying` is an error
   * callback that raised, which ends the thread.
   */
  datatype Phase = Testing | Waiting | Took(job: JobId) | Working(job: JobId) | Settled(job: JobId, dying: bool) | Dead

  /** `threads` are all worker threads ever created; `accepted` and `done` are histories. */
  datatype State = State(
    threads: seq<Phase>, thread: Option<nat>, stop: bool,
    queue: seq<JobId>, seen: set<JobId>, inflight: int,
    processed: nat, failed: nat, dropped: nat, duplicates: nat, unavailable: nat,
    accepted: seq<JobId>, done: seq<JobId>, submits: nat)

  const INITIAL := State([], None, false, [], {}, 0, 0, 0, 0, 0, 0, [], [], 0)

  /** No engine means every job is refused; a queue bound of zero or less is no bound. */
  datatype Config = Config(available: bool, maxsize: int)

  predicate IsAlive(s: State, t: nat) {
    t < |s.threads| && s.threads[t] != Dead
  }

  // ----- the lock-protected sections

  function Started(s: State): State {
    if s.thread.Some? && IsAlive(s, s.thread.value) then s
    else s.(stop := false, threads := s.threads + [Testing], thread := Some(|s.threads|))
  }

  function StopAsked(s: State): State {
    s.(stop := true)
  }

  /** The last section of `stop` for the thread it joined. */
  predicate Judgement(s: State, t: nat) {
    s.thread == Some(t) && !IsAlive(s, t)
  }

  function Judged(s: State, t: nat): State {
    if Judgement(s, t) then s.(thread := None) else s
  }

  predicate IsFull(cfg: Config, s: State) {
    0 < cfg.maxsize <= |s.queue|
  }

  predicate Accepts(cfg: Config, s: State, job: JobId) {
    cfg.available && job !in s.seen && !IsFull(cfg, s)
  }

  function Submitted(cfg: Config, s: State, job: JobId): State {
    var counted := s.(submits := s.submits + 1);
    if !cfg.available then counted.(unavailable := s.unavailable + 1)
    else if job in s.seen then counted.(duplicates := s.duplicates + 1)
    else if IsFull(cfg, s) then counted.(dropped := s.dropped + 1)
    else counted.(queue := s.queue + [job], seen := s.seen + {job}, accepted := s.accepted + [job])
  }

  // ----- the worker loop

  function Tested(s: State, t: nat): State
    requires t < |s.threads| && s.threads[t].Testing?
  {
    s.(threads := s.threads[t := if s.stop then Dead else Waiting])
  }

  function Taken(s: State, t: nat): State
    requires t < |s.threads| && s.threads[t].Waiting?
  {
    if s.queue == [] then s.(threads := s.threads[t := Testing])
    else s.(threads := s.threads[t := Took(s.queue[0])], queue := s.queue[1..])
  }

  function CountedIn(s: State, t: nat): State
    requires t < |s.threads| && s.threads[t].Took?
  {
    s.(threads := s.threads[t := Working(s.threads[t].job)], inflight := s.inflight + 1)
  }

  /** The job succeeded, or failed; after a failure the error callback may raise. */
  function Finished(s: State, t: nat, ok: bool, raises: bool): State
    requires t < |s.threads| && s.threads[t].Working?
  {
    var job := s.threads[t].job;
    var next := s.(threads := s.threads[t := Settled(job, !ok && raises)], done := s.done + [job]);
    if ok then next.(processed := s.processed + 1) else next.(failed := s.failed + 1)
  }

  function Released(s: State, t: nat): State
    requires t < |s.threads| && s.threads[t].Settled?
  {
    s.(threads := s.threads[t := if s.threads[t].dying then Dead else Testing], inflight := s.inflight - 1)
  }

  class SttWorker {
    const cfg: Config
    var thread: Option<nat>
    var stop: bool
    var queue: seq<JobId>
    var seen: set<JobId>
    var inflight: int
    var processed: nat
    var failed: nat
    var dropped: nat
    var duplicates: nat
    var unavailable: nat
    var threads: seq<Phase>
    ghost var accepted: seq<JobId>
    ghost var done: seq<JobId>
    ghost var submits: nat

    ghost function View(): State
      reads this
    {
      State(threads, thread, stop, queue, seen, inflight, processed, failed, dropped, duplicates, unavailable, accepted,
            done, submits)
    }

    constructor (cfg: Config)
      ensures this.cfg == cfg && View() == INITIAL
    {
      this.cfg, thread, stop, queue, seen, inflight := cfg, None, false, [], {}, 0;
      processed, failed, dropped, duplicates, unavailable := 0, 0, 0, 0, 0;
      threads, accepted, done, submits := [], [], [], 0;
    }

    method Start()
      modifies this
      ensures View() == Started(old(View()))
      ensures old(thread.None? || !IsAlive(View(), thread.value)) ==>
                !stop && thread == Some(|old(threads)|) && threads == old(threads) + [Testing]
    {
      if thread.Some? && thread.value < |threads| && threads[thread.value] != Dead {
        return;
      }
      stop := false;
      thread := Some(|threads|);
      threads := threads + [Testing];
    }

    method RequestStop() returns (target: Option<nat>)
      modifies this`stop
      ensures View() == StopAsked(old(View())) && target == thread
    {
      stop := true;
      target := thread;
    }

    method JudgeStop(target: nat) returns (stopped: bool)
      modifies this`thread
      ensures stopped == Judgement(old(View()), target)
      ensures View() == Judged(old(View()), target)
    {
      if thread != Some(target) {
        return false;
      }
      if target < |threads| && threads[target] != Dead {
        return false;
      }
      thread := None;
      return true;
    }

    method Submit(job: JobId) returns (queued: bool)
      modifies this
      ensures queued == Accepts(cfg, old(View()), job)
      ensures View() == Submitted(cfg, old(View()), job)
    {
      submits := submits + 1;
      if !cfg.available {
        unavailable := unavailable + 1;
        return false;
      }
      if job in seen {
        duplicates := duplicates + 1;
        return false;
      }
      if 0 < cfg.maxsize && cfg.maxsize <= |queue| {
        dropped := dropped + 1;
        return false;
      }
      queue := queue + [job];
      seen := seen + {job};
      accepted := accepted + [job];
      return true;
    }

    /** One turn of the loop of thread t up to the job it takes, if any. */
    method TakeJob(t: nat) returns (job: Option<JobId>)
      requires t < |threads| && threads[t].Testing?
      modifies this`threads, this`queue, this`inflight
      ensures job.None? ==>
                View() == if old(stop) then Tested(old(View()), t) else Taken(Tested(old(View()), t), t)
      ensures job.Some? ==>
                && !old(stop) && old(queue) != [] && job.value == old(queue)[0]
                && View() == CountedIn(Taken(Tested(old(View()), t), t), t)
    {
      if stop {
        threads := threads[t := Dead];
        return None;
      }
      threads := threads[t := Waiting];
      if queue == [] {
        threads := threads[t := Testing];
        return None;
      }
      job := Some(queue[0]);
      threads := threads[t := Took(queue[0])];
      queue := queue[1..];
      inflight := inflight + 1;
      threads := threads[t := Working(job.value)];
    }

    /** The rest of the turn: count the outcome, then release the job in any case. */
    method Conclude(t: nat, ok: bool, raises: bool)
      requires t < |threads| && threads[t].Working?
      modifies this
      ensures View() == Released(Finished(old(View()), t, ok, raises), t)
    {
      done := done + [threads[t].job];
      if ok {
        processed := processed + 1;
      } else {
        failed := failed + 1;
      }
      inflight := inflight - 1;
      threads := threads[t := if !ok && raises then Dead else Testing];
    }

    /**
     * The test of `wait_idle`: when it holds, all accepted jobs are done unless a worker holds
     * one it has not counted.
     */
    method IsIdle() returns (idle: bool)
      ensures idle == IdleTest(View())
      ensures idle && Inv(cfg, View()) ==> (done == accepted <==> NothingUncounted(View()))
    {
      idle := queue == [] && inflight == 0;
      if idle && Inv(cfg, View()) {
        IdleMeans(cfg, View());
      }
    }
  }

  predicate IdleTest(s: State) {
    s.queue == [] && s.inflight == 0
  }

  // ----- interleavings

  /** A caller of `stop`: flag set, then joining the thread it read, then answered. */
  datatype Stopper = Away | Asked | Joining(target: nat) | Answered(stopped: bool)

  datatype System = System(state: State, stoppers: seq<Stopper>)

  datatype Action =
    | Start
    | Submit(job: JobId)
    | Ask(i: nat)
    | Read(i: nat)
    | Judge(i: nat)
    | Leave(i: nat)
    | Test(t: nat)
    | Take(t: nat)
    | CountIn(t: nat)
    | Finish(t: nat, ok: bool, raises: bool)
    | Release(t: nat)

  predicate Enabled(sys: System, a: Action) {
    match a
    case Start => true
    case Submit(_) => true
    case Ask(i) => i < |sys.stoppers| && sys.stoppers[i].Away?
    case Read(i) => i < |sys.stoppers| && sys.stoppers[i].Asked?
    case Judge(i) => i < |sys.stoppers| && sys.stoppers[i].Joining?
    case Leave(i) => i < |sys.stoppers| && sys.stoppers[i].Answered?
    case Test(t) => t < |sys.state.threads| && sys.state.threads[t].Testing?
    case Take(t) => t < |sys.state.threads| && sys.state.threads[t].Waiting?
    case CountIn(t) => t < |sys.state.threads| && sys.state.threads[t].Took?
    case Finish(t, _, _) => t < |sys.state.threads| && sys.state.threads[t].Working?
    case Release(t) => t < |sys.state.threads| && sys.state.threads[t].Settled?
  }

  function StateAfter(cfg: Config, sys: System, a: Action): State
    requires Enabled(sys, a)
  {
    var s := sys.state;
    match a
    case Start => Started(s)
    case Submit(job) => Submitted(cfg, s, job)
    case Ask(_) => StopAsked(s)
    case Read(_) => s
    case Judge(i) => Judged(s, sys.stoppers[i].target)
    case Leave(_) => s
    case Test(t) => Tested(s, t)
    case Take(t) => Taken(s, t)
    case CountIn(t) => CountedIn(s, t)
    case Finish(t, ok, raises) => Finished(s, t, ok, raises)
    case Release(t) => Released(s, t)
  }

  /** A join may time out at any moment, so judging is always possible. */
  function StoppersAfter(sys: System, a: Action): seq<Stopper>
    requires Enabled(sys, a)
  {
    var s := sys.state;
    match a
    case Ask(i) => sys.stoppers[i := Asked]
    case Read(i) => sys.stoppers[i := if s.thread.Some? then Joining(s.thread.value) else Answered(true)]
    case Judge(i) => sys.stoppers[i := Answered(Judgement(s, sys.stoppers[i].target))]
    case Leave(i) => sys.stoppers[i := Away]
    case _ => sys.stoppers
  }

  function Next(cfg: Config, sys: System, a: Action): System
    requires Enabled(sys, a)
  {
    System(StateAfter(cfg, sys, a), StoppersAfter(sys, a))
  }

  ghost predicate IsRun(cfg: Config, systems: seq<System>, actions: seq<Action>) {
    && |systems| == |actions| + 1
    && systems[0].state == INITIAL
    && (forall i :: 0 <= i < |systems[0].stoppers| ==> systems[0].stoppers[i].Away?)
    && (forall n :: 0 <= n < |actions| ==>
        Enabled(systems[n], actions[n]) && systems[n + 1] == Next(cfg, systems[n], actions[n]))
  }

  // ----- at most one worker

  /** Only the thread in `_thread` can be alive. */
  ghost predicate SingleWorker(s: State) {
    && (s.thread.Some? ==> s.thread.value < |s.threads|)
    && (forall t :: 0 <= t < |s.threads| && s.threads[t] != Dead ==> s.thread == Some(t))
  }

  lemma KeepsSingleWorker(cfg: Config, sys: System, a: Action)
    requires SingleWorker(sys.state) && Enabled(sys, a)
    ensures SingleWorker(StateAfter(cfg, sys, a))
  {
  }

  // ----- no job is lost, repeated or reordered

  function InHand(phase: Phase): seq<JobId> {
    match phase
    case Took(job) => [job]
    case Working(job) => [job]
    case _ => []
  }

  function Hand(s: State): seq<JobId> {
    if s.thread.Some? && s.thread.value < |s.threads| then InHand(s.threads[s.thread.value]) else []
  }

  function Inflight(s: State): int {
    if s.thread.Some? && s.thread.value < |s.threads|
        && (s.threads[s.thread.value].Working? || s.threads[s.thread.value].Settled?)
    then 1 else 0
  }

  /** Accepted jobs, in order: those done, the one in hand, those queued. */
  ghost predicate Conserved(s: State) {
    s.accepted == s.done + Hand(s) + s.queue
  }

  ghost predicate Counted(cfg: Config, s: State) {
    && Distinct(s.accepted)
    && (forall job :: job in s.seen <==> job in s.accepted)
    && s.submits == |s.accepted| + s.dropped + s.duplicates + s.unavailable
    && s.processed + s.failed == |s.done|
    && s.inflight == Inflight(s)
    && (0 < cfg.maxsize ==> |s.queue| <= cfg.maxsize)
    && (!cfg.available ==> s.accepted == [])
  }

  lemma KeepsConserved(cfg: Config, sys: System, a: Action)
    requires SingleWorker(sys.state) && Conserved(sys.state) && Enabled(sys, a)
    ensures Conserved(StateAfter(cfg, sys, a))
  {
    var s := sys.state;
    match a
    case Take(t) => assert s.queue != [] ==> s.queue == [s.queue[0]] + s.queue[1..];
    case Submit(job) => assert s.done + Hand(s) + (s.queue + [job]) == s.done + Hand(s) + s.queue + [job];
    case Finish(t, ok, raises) => FinishKeepsConserved(s, t, ok, raises);
    case _ =>
  }

  lemma FinishKeepsConserved(s: State, t: nat, ok: bool, raises: bool)
    requires SingleWorker(s) && Conserved(s) && t < |s.threads| && s.threads[t].Working?
    ensures Conserved(Finished(s, t, ok, raises))
  {
    assert s.done + [s.threads[t].job] + [] + s.queue == s.done + Hand(s) + s.queue;
  }

  lemma KeepsCounted(cfg: Config, sys: System, a: Action)
    requires SingleWorker(sys.state) && Counted(cfg, sys.state) && Enabled(sys, a)
    ensures Counted(cfg, StateAfter(cfg, sys, a))
  {
    match a
    case Submit(job) => SubmitKeepsCounted(cfg, sys.state, job);
    case Test(t) => LoopKeepsCounted(cfg, sys, a);
    case Take(t) => LoopKeepsCounted(cfg, sys, a);
    case CountIn(t) => LoopKeepsCounted(cfg, sys, a);
    case Finish(t, _, _) => LoopKeepsCounted(cfg, sys, a);
    case Release(t) => LoopKeepsCounted(cfg, sys, a);
    case _ =>
  }

  lemma SubmitKeepsCounted(cfg: Config, s: State, job: JobId)
    requires Counted(cfg, s)
    ensures Counted(cfg, Submitted(cfg, s, job))
  {
  }

  lemma LoopKeepsCounted(cfg: Config, sys: System, a: Action)
    requires SingleWorker(sys.state) && Counted(cfg, sys.state) && Enabled(sys, a)
    requires a.Test? || a.Take? || a.CountIn? || a.Finish? || a.Release?
    ensures Counted(cfg, StateAfter(cfg, sys, a))
  {
  }

  ghost predicate Inv(cfg: Config, s: State) {
    SingleWorker(s) && Conserved(s) && Counted(cfg, s)
  }

  lemma {:induction false} RunKeepsInv(cfg: Config, systems: seq<System>, actions: seq<Action>, n: nat)
    requires IsRun(cfg, systems, actions) && n <= |actions|
    ensures Inv(cfg, systems[n].state)
  {
    if n > 0 {
      RunKeepsInv(cfg, systems, actions, n - 1);
      KeepsSingleWorker(cfg, systems[n - 1], actions[n - 1]);
      KeepsConserved(cfg, systems[n - 1], actions[n - 1]);
      KeepsCounted(cfg, systems[n - 1], actions[n - 1]);
    }
  }

  // ----- what it means

  /** Two live workers are one, and it is the one on record. */
  lemma AtMostOneWorker(cfg: Config, systems: seq<System>, actions: seq<Action>, n: nat, t: nat, u: nat)
    requires IsRun(cfg, systems, actions) && n <= |actions|
    requires IsAlive(systems[n].state, t) && IsAlive(systems[n].state, u)
    ensures t == u && systems[n].state.thread == Some(t)
  {
    RunKeepsInv(cfg, systems, actions, n);
    assert SingleWorker(systems[n].state);
  }

  /** When `stop` settles on True, no worker is alive. */
  lemma StopTrueMeansNoneAlive(cfg: Config, systems: seq<System>, actions: seq<Action>, n: nat, i: nat, t: nat)
    requires IsRun(cfg, systems, actions) && n < |actions|
    requires i < |systems[n + 1].stoppers| && systems[n + 1].stoppers[i] == Answered(true)
    requires actions[n] == Read(i) || actions[n] == Judge(i)
    ensures !IsAlive(systems[n + 1].state, t)
  {
    RunKeepsInv(cfg, systems, actions, n);
    RunKeepsInv(cfg, systems, actions, n + 1);
    assert Enabled(systems[n], actions[n]) && systems[n + 1] == Next(cfg, systems[n], actions[n]);
    assert systems[n + 1].state.thread == None;
    assert SingleWorker(systems[n + 1].state);
  }

  /** Each accepted job is done, in hand or queued, once, in order; every submission is counted once. */
  lemma JobsAreConserved(cfg: Config, systems: seq<System>, actions: seq<Action>, n: nat)
    requires IsRun(cfg, systems, actions) && n <= |actions|
    ensures var s := systems[n].state;
            && s.accepted == s.done + Hand(s) + s.queue
            && Distinct(s.done + Hand(s) + s.queue)
            && |Hand(s)| <= 1
            && s.submits == |s.done| + |Hand(s)| + |s.queue| + s.dropped + s.duplicates + s.unavailable
            && s.processed + s.failed == |s.done|
            && (0 < cfg.maxsize ==> |s.queue| <= cfg.maxsize)
  {
    RunKeepsInv(cfg, systems, actions, n);
  }

  ghost predicate NothingUncounted(s: State) {
    forall t :: 0 <= t < |s.threads| ==> !s.threads[t].Took?
  }

  lemma IdleMeans(cfg: Config, s: State)
    requires Inv(cfg, s) && IdleTest(s)
    ensures s.done == s.accepted <==> NothingUncounted(s)
  {
    if Hand(s) == [] {
      assert s.accepted == s.done;
    } else {
      assert |s.accepted| == |s.done| + 1;
      assert s.threads[s.thread.value].Took?;
    }
  }

  /** The idle test is right exactly when no worker holds a job it has not counted yet. */
  lemma IdleTestIff(cfg: Config, systems: seq<System>, actions: seq<Action>, n: nat)
    requires IsRun(cfg, systems, actions) && n <= |actions|
    requires IdleTest(systems[n].state)
    ensures systems[n].state.done == systems[n].state.accepted <==> NothingUncounted(systems[n].state)
  {
    RunKeepsInv(cfg, systems, actions, n);
    IdleMeans(cfg, systems[n].state);
  }

  /** `wait_idle` may report idle while a job has left the queue and is not yet in flight. */
  lemma IdleTestCanBeEarly(job: JobId) returns (systems: seq<System>, actions: seq<Action>)
    ensures IsRun(Config(true, 1), systems, actions)
    ensures var s := systems[|actions|].state;
            IdleTest(s) && s.done == [] && s.accepted == [job]
  {
    var cfg := Config(true, 1);
    actions := [Start, Submit(job), Test(0), Take(0)];
    var s0 := System(INITIAL, []);
    var s1 := Next(cfg, s0, Start);
    assert s1.state.threads == [Testing];
    var s2 := Next(cfg, s1, Submit(job));
    var s3 := Next(cfg, s2, Test(0));
    assert s3.state.threads == [Waiting] && s3.state.queue == [job];
    var s4 := Next(cfg, s3, Take(0));
    systems := [s0, s1, s2, s3, s4];
  }

  // ----- what each submission and each job counts as

  /** A submission by what became of earlier ones: refused, repeated, turned away from a full queue, or queued last. */
  lemma SubmitOutcome(cfg: Config, s: State, job: JobId)
    requires Counted(cfg, s)
    ensures var after, known, full := Submitted(cfg, s, job), job in s.accepted, 0 < cfg.maxsize == |s.queue|;
            && after.unavailable == s.unavailable + (if cfg.available then 0 else 1)
            && after.duplicates == s.duplicates + (if cfg.available && known then 1 else 0)
            && after.dropped == s.dropped + (if cfg.available && !known && full then 1 else 0)
            && (cfg.available && !known && !full ==>
                after.queue == s.queue + [job] && after.accepted == s.accepted + [job])
            && (!cfg.available || known || full ==> after.queue == s.queue && after.accepted == s.accepted)
  {
  }

  /** The jobs that ended this way among the first n actions. */
  function Ended(actions: seq<Action>, n: nat, ok: bool): nat
    requires n <= |actions|
  {
    if n == 0 then 0
    else Ended(actions, n - 1, ok) + if actions[n - 1].Finish? && actions[n - 1].ok == ok then 1 else 0
  }

  lemma EndedStep(cfg: Config, sys: System, a: Action)
    requires Enabled(sys, a)
    ensures var after := StateAfter(cfg, sys, a);
            && after.processed == sys.state.processed + (if a.Finish? && a.ok then 1 else 0)
            && after.failed == sys.state.failed + (if a.Finish? && !a.ok then 1 else 0)
  {
  }

  /** In every interleaving: processed counts the jobs that succeeded, failed those that did not. */
  lemma {:induction false} OutcomesAreCounted(cfg: Config, systems: seq<System>, actions: seq<Action>, n: nat)
    requires IsRun(cfg, systems, actions) && n <= |actions|
    ensures systems[n].state.processed == Ended(actions, n, true) && systems[n].state.failed == Ended(actions, n, false)
  {
    if n > 0 {
      OutcomesAreCounted(cfg, systems, actions, n - 1);
      EndedStep(cfg, systems[n - 1], actions[n - 1]);
    }
  }

  // ----- a worker that is let run

  /** Whether a job succeeds, and whether the error callback would raise. */
  datatype Fate = Fate(ok: bool, raises: bool)

  predicate IsFatal(fate: Fate) {
    !fate.ok && fate.raises
  }

  /** The next step of worker t. */
  function Advanced(s: State, t: nat, fate: Fate): State
    requires t < |s.threads|
  {
    match s.threads[t]
    case Testing => Tested(s, t)
    case Waiting => Taken(s, t)
    case Took(_) => CountedIn(s, t)
    case Working(_) => Finished(s, t, fate.ok, fate.raises)
    case Settled(_, _) => Released(s, t)
    case Dead => s
  }

  /** Steps of worker t, one for each fate, while nobody else acts. */
  function Worked(s: State, t: nat, fates: seq<Fate>): (next: State)
    requires t < |s.threads|
    ensures |next.threads| == |s.threads|
    decreases |fates|
  {
    if fates == [] then s else Worked(Advanced(s, t, fates[0]), t, fates[1..])
  }

  /** They are steps of the interleavings. */
  lemma AdvancedIsAction(cfg: Config, sys: System, t: nat, fate: Fate) returns (a: Action)
    requires IsAlive(sys.state, t)
    ensures Enabled(sys, a) && StateAfter(cfg, sys, a) == Advanced(sys.state, t, fate)
  {
    match sys.state.threads[t]
    case Testing => a := Test(t);
    case Waiting => a := Take(t);
    case Took(_) => a := CountIn(t);
    case Working(_) => a := Finish(t, fate.ok, fate.raises);
    case Settled(_, _) => a := Release(t);
  }

  lemma {:induction false} WorkedInTwoParts(s: State, t: nat, first: seq<Fate>, rest: seq<Fate>)
    requires t < |s.threads|
    ensures Worked(s, t, first + rest) == Worked(Worked(s, t, first), t, rest)
    decreases |first|
  {
    if first == [] {
      assert first + rest == rest;
    } else {
      WorkedInTwoParts(Advanced(s, t, first[0]), t, first[1..], rest);
      assert (first + rest)[1..] == first[1..] + rest;
    }
  }

  lemma WorkedNext(s: State, t: nat, fates: seq<Fate>)
    requires t < |s.threads| && fates != []
    ensures Worked(s, t, fates) == Worked(Advanced(s, t, fates[0]), t, fates[1..])
  {
  }

  /**
   * When no worker is alive, a start, whatever was asked before, leaves one new worker on record
   * with the flag clear, which goes to the queue at its first test; a live worker is left alone.
   */
  lemma StartRevives(s: State)
    ensures s.thread.Some? && IsAlive(s, s.thread.value) ==> Started(s) == s
    ensures !(s.thread.Some? && IsAlive(s, s.thread.value)) ==>
              var next, t := Started(s), |s.threads|;
              && !next.stop && next.thread == Some(t) && next.threads == s.threads + [Testing]
              && Tested(next, t).threads[t] == Waiting
              && next.queue == s.queue && next.accepted == s.accepted && next.done == s.done
  {
  }

  /** A worker at its test, with the flag clear and jobs queued. */
  predicate AtTest(s: State, t: nat) {
    t < |s.threads| && s.threads[t] == Testing && !s.stop
  }

  /** Count in, finish and release: what a worker does with the job it took. */
  lemma FinishesTaken(s: State, t: nat, fates: seq<Fate>)
    requires t < |s.threads| && s.threads[t].Took? && !s.stop && |fates| == 3 && !IsFatal(fates[1])
    ensures var after := Worked(s, t, fates);
            && AtTest(after, t) && after.queue == s.queue && after.done == s.done + [s.threads[t].job]
            && after.accepted == s.accepted && after.inflight == s.inflight && after.thread == s.thread
  {
    WorkedNext(s, t, fates);
    var counted := CountedIn(s, t);
    WorkedNext(counted, t, fates[1..]);
    var finished := Finished(counted, t, fates[1].ok, fates[1].raises);
    WorkedNext(finished, t, fates[1..][1..]);
    assert fates[1..][1..][1..] == [];
  }

  /** Test, take and the rest: five steps do the oldest job. */
  lemma DoesOneJob(s: State, t: nat, fates: seq<Fate>)
    requires AtTest(s, t) && s.queue != [] && |fates| == 5 && !IsFatal(fates[3])
    ensures var after := Worked(s, t, fates);
            && AtTest(after, t) && after.queue == s.queue[1..] && after.done == s.done + [s.queue[0]]
            && after.accepted == s.accepted && after.inflight == s.inflight && after.thread == s.thread
  {
    WorkedNext(s, t, fates);
    var tested := Tested(s, t);
    WorkedNext(tested, t, fates[1..]);
    assert fates[1..][1..] == fates[2..];
    FinishesTaken(Taken(tested, t), t, fates[2..]);
  }

  ghost predicate NoneFatal(fates: seq<Fate>) {
    forall i :: 0 <= i < |fates| ==> !IsFatal(fates[i])
  }

  /** From its test a worker does all queued jobs, in order, five steps a job. */
  lemma {:induction false} DoesAllJobs(s: State, t: nat, fates: seq<Fate>)
    requires AtTest(s, t) && |fates| == 5 * |s.queue| && NoneFatal(fates)
    ensures var after := Worked(s, t, fates);
            && AtTest(after, t) && after.queue == [] && after.done == s.done + s.queue
            && after.accepted == s.accepted && after.inflight == s.inflight && after.thread == s.thread
    decreases |s.queue|
  {
    if s.queue != [] {
      DoesOneJob(s, t, fates[..5]);
      WorkedInTwoParts(s, t, fates[..5], fates[5..]);
      assert fates == fates[..5] + fates[5..];
      DoesAllJobs(Worked(s, t, fates[..5]), t, fates[5..]);
      assert s.queue == [s.queue[0]] + s.queue[1..];
    }
  }

  /** How many steps a worker is from its next test. */
  function StepsToTest(s: State, t: nat): nat
    requires t < |s.threads|
  {
    match s.threads[t]
    case Waiting => if s.queue == [] then 1 else 4
    case Took(_) => 3
    case Working(_) => 2
    case Settled(_, _) => 1
    case _ => 0
  }

  /** A live worker with the flag clear comes back to its test with the job it had, or the one it takes, done. */
  lemma ComesToTest(s: State, t: nat, fates: seq<Fate>)
    requires IsAlive(s, t) && !s.stop && |fates| == StepsToTest(s, t) && NoneFatal(fates)
    requires s.threads[t].Settled? ==> !s.threads[t].dying
    ensures var after := Worked(s, t, fates);
            && AtTest(after, t) && after.accepted == s.accepted && after.thread == s.thread
            && after.done + after.queue == s.done + InHand(s.threads[t]) + s.queue
            && after.inflight == s.inflight - (if s.threads[t].Working? || s.threads[t].Settled? then 1 else 0)
            && |after.queue| == if s.threads[t].Waiting? && s.queue != [] then |s.queue| - 1 else |s.queue|
  {
    match s.threads[t]
    case Testing =>
    case Waiting =>
      WorkedNext(s, t, fates);
      if s.queue != [] {
        FinishesTaken(Taken(s, t), t, fates[1..]);
        assert s.queue == [s.queue[0]] + s.queue[1..];
      }
    case Took(_) => FinishesTaken(s, t, fates);
    case Working(_) =>
      WorkedNext(s, t, fates);
      WorkedNext(Finished(s, t, fates[0].ok, fates[0].raises), t, fates[1..]);
      assert fates[1..][1..] == [];
    case Settled(_, _) => WorkedNext(s, t, fates);
  }

  /**
   * From any reachable state with a live worker and the flag clear: let run, and as long as no
   * error callback raises, the worker does every accepted job, oldest first, and is then idle.
   */
  lemma WorkerDoesEverything(cfg: Config, s: State, t: nat, fates: seq<Fate>) returns (n: nat)
    requires Inv(cfg, s) && IsAlive(s, t) && !s.stop && (s.threads[t].Settled? ==> !s.threads[t].dying)
    requires NoneFatal(fates) && |fates| >= 4 + 5 * |s.queue|
    ensures n <= |fates|
    ensures var after := Worked(s, t, fates[..n]);
            after.done == after.accepted == s.accepted && IdleTest(after) && IsAlive(after, t)
  {
    var k := StepsToTest(s, t);
    ComesToTest(s, t, fates[..k]);
    var ready := Worked(s, t, fates[..k]);
    n := k + 5 * |ready.queue|;
    DoesAllJobs(ready, t, fates[k..n]);
    assert fates[..n] == fates[..k] + fates[k..n];
    WorkedInTwoParts(s, t, fates[..k], fates[k..n]);
  }

  /** Once stop is asked for, five steps end a live worker, which does at most the job it had or was about to take. */
  lemma StopEndsWorker(s: State, t: nat, fates: seq<Fate>)
    requires IsAlive(s, t) && |fates| == 5
    ensures var asked := StopAsked(s);
            var after := Worked(asked, t, fates);
            && after.threads[t] == Dead && (s.thread == Some(t) ==> Judgement(after, t))
            && after.done == s.done + InHand(s.threads[t])
                             + (if s.threads[t].Waiting? && s.queue != [] then [s.queue[0]] else [])
  {
    var asked := StopAsked(s);
    WorkedNext(asked, t, fates);
    var one := Advanced(asked, t, fates[0]);
    WorkedNext(one, t, fates[1..]);
    var two := Advanced(one, t, fates[1..][0]);
    WorkedNext(two, t, fates[1..][1..]);
    var three := Advanced(two, t, fates[1..][1..][0]);
    WorkedNext(three, t, fates[1..][1..][1..]);
    var four := Advanced(three, t, fates[1..][1..][1..][0]);
    WorkedNext(four, t, fates[1..][1..][1..][1..]);
    assert fates[1..][1..][1..][1..][1..] == [];
  }

  /** A job that failed and whose error callback raised ends the worker, counted and released. */
  lemma FatalJobEndsWorker(s: State, t: nat, fate: Fate)
    requires t < |s.threads| && s.threads[t].Working?
    ensures var after := Released(Finished(s, t, fate.ok, fate.raises), t);
            && (after.threads[t] == Dead <==> IsFatal(fate)) && (after.threads[t] == Testing <==> !IsFatal(fate))
            && after.inflight == s.inflight - 1 && after.done == s.done + [s.threads[t].job]
  {
  }
}
