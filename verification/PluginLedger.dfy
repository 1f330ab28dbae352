/**
 * The idempotency ledger of backend/app/event_delivery/plugin_idempotency_ledger.py: a plugin
 * runs only while no row exists for its (event, plugin) pair, and the row is written after it ran.
 */
module PluginLedger {
  import opened Common
  import opened Counting

  type Pair = (string, string)

  /** How a run of the plugin ends; Dies is a process lost after the side effect, before the row. */
  datatype Fate = Succeeds(result: string) | Raises | Dies

  datatype Answer = Ran(result: string) | Skipped | Raised | Died

  class PluginDeliveryLedger {
    var rows: seq<Pair>
    ghost var effects: multiset<Pair>
    ghost var losses: multiset<Pair>

    /** One row a pair, and every side effect is accounted for: by the row, or by a process that died. */
    ghost predicate Valid()
      reads this
    {
      && Distinct(rows)
      && forall pair :: effects[pair] == losses[pair] + if pair in rows then 1 else 0
    }

    constructor ()
      ensures Valid() && rows == [] && effects == losses == multiset{}
    {
      rows, effects, losses := [], multiset{}, multiset{};
    }

    method HasDelivered(e: string, p: string) returns (found: bool)
      ensures found <==> (e, p) in rows
    {
      found := (e, p) in rows;
    }

    /** The UNIQUE constraint turns a repeated insert into a no-op. */
    method RecordDelivery(e: string, p: string) returns (created: bool)
      requires Distinct(rows)
      modifies this`rows
      ensures Distinct(rows)
      ensures created <==> (e, p) !in old(rows)
      ensures rows == if created then old(rows) + [(e, p)] else old(rows)
    {
      if (e, p) in rows {
        return false;
      }
      rows := rows + [(e, p)];
      return true;
    }

    method RunIdempotent(e: string, p: string, fate: Fate) returns (answer: Answer)
      requires Valid()
      modifies this
      ensures Valid()
      ensures answer == if (e, p) in old(rows) then Skipped else match fate
                        case Succeeds(result) => Ran(result)
                        case Raises => Raised
                        case Dies => Died
      ensures rows == if answer.Ran? then old(rows) + [(e, p)] else old(rows)
      ensures effects == if answer.Ran? || answer.Died? then old(effects) + multiset{(e, p)} else old(effects)
      ensures losses == if answer.Died? then old(losses) + multiset{(e, p)} else old(losses)
    {
      var found := HasDelivered(e, p);
      if found {
        return Skipped;
      }
      match fate
      case Raises =>
        return Raised;
      case Dies =>
        effects := effects + multiset{(e, p)};
        losses := losses + multiset{(e, p)};
        return Died;
      case Succeeds(result) =>
        effects := effects + multiset{(e, p)};
        var created := RecordDelivery(e, p);
        return Ran(result);
    }
  }

  // ----- interleaved runs

  datatype Proc = Idle | Checked(pair: Pair) | Completed(pair: Pair)

  /** `repeats` are side effects whose row turned out to exist already. */
  datatype System = System(rows: seq<Pair>, procs: seq<Proc>, effects: multiset<Pair>, losses: multiset<Pair>,
                           repeats: multiset<Pair>)

  datatype Step = Check(pair: Pair) | Complete | Raise | Record | Crash

  predicate Enabled(s: System, i: nat, step: Step) {
    i < |s.procs| &&
    match step
    case Check(_) => s.procs[i].Idle?
    case Complete => s.procs[i].Checked?
    case Raise => s.procs[i].Checked?
    case Record => s.procs[i].Completed?
    case Crash => true
  }

  function Next(s: System, i: nat, step: Step): System
    requires Enabled(s, i, step)
  {
    var proc := s.procs[i];
    match step
    case Check(pair) => if pair in s.rows then s else s.(procs := s.procs[i := Checked(pair)])
    case Complete => s.(procs := s.procs[i := Completed(proc.pair)], effects := s.effects + multiset{proc.pair})
    case Raise => s.(procs := s.procs[i := Idle])
    case Record =>
      if proc.pair in s.rows then s.(procs := s.procs[i := Idle], repeats := s.repeats + multiset{proc.pair})
      else s.(procs := s.procs[i := Idle], rows := s.rows + [proc.pair])
    case Crash =>
      s.(procs := s.procs[i := Idle], losses := if proc.Completed? then s.losses + multiset{proc.pair} else s.losses)
  }

  function Waits(proc: Proc, pair: Pair): nat {
    if proc == Completed(pair) then 1 else 0
  }

  function Waiting(procs: seq<Proc>, pair: Pair): (counts: seq<nat>)
    ensures |counts| == |procs|
  {
    seq(|procs|, i requires 0 <= i < |procs| => Waits(procs[i], pair))
  }

  /**
   * Completed side effects: the recorded one, those whose process died, those found recorded,
   * those about to be recorded.
   */
  ghost predicate Accounted(s: System, pair: Pair) {
    s.effects[pair] == (if pair in s.rows then 1 else 0) + s.losses[pair] + s.repeats[pair]
        + Sum(Waiting(s.procs, pair))
  }

  ghost predicate Inv(s: System) {
    Distinct(s.rows) && forall pair :: Accounted(s, pair)
  }

  lemma WaitingUpdate(procs: seq<Proc>, i: nat, proc: Proc, pair: Pair)
    requires i < |procs|
    ensures Sum(Waiting(procs[i := proc], pair))
            == Sum(Waiting(procs, pair)) - Waits(procs[i], pair) + Waits(proc, pair)
  {
    SumUpdate(Waiting(procs, pair), i, Waits(proc, pair));
    assert Waiting(procs[i := proc], pair) == Waiting(procs, pair)[i := Waits(proc, pair)];
  }

  lemma StepAccounts(s: System, i: nat, step: Step, pair: Pair)
    requires Enabled(s, i, step) && Accounted(s, pair)
    ensures Accounted(Next(s, i, step), pair)
  {
    var next := Next(s, i, step);
    assert next.procs == s.procs[i := next.procs[i]];
    WaitingUpdate(s.procs, i, next.procs[i], pair);
  }

  ghost predicate IsRun(states: seq<System>, movers: seq<nat>, steps: seq<Step>) {
    && |states| == |steps| + 1 == |movers| + 1
    && states[0].rows == [] && states[0].effects == states[0].losses == states[0].repeats == multiset{}
    && (forall i :: 0 <= i < |states[0].procs| ==> states[0].procs[i].Idle?)
    && (forall n :: 0 <= n < |steps| ==>
        Enabled(states[n], movers[n], steps[n]) && states[n + 1] == Next(states[n], movers[n], steps[n]))
  }

  /** In every interleaving: one row a pair, and no side effect is unaccounted for. */
  lemma {:induction false} EffectsAreAccounted(states: seq<System>, movers: seq<nat>, steps: seq<Step>, n: nat)
    requires IsRun(states, movers, steps) && n <= |steps|
    ensures Inv(states[n])
  {
    if n == 0 {
      forall pair ensures Accounted(states[0], pair) {
        SumOfNothing(Waiting(states[0].procs, pair));
      }
    } else {
      EffectsAreAccounted(states, movers, steps, n - 1);
      forall pair ensures Accounted(states[n], pair) {
        StepAccounts(states[n - 1], movers[n - 1], steps[n - 1], pair);
      }
    }
  }

  /** A row means the side effect completed. */
  lemma RowMeansCompleted(states: seq<System>, movers: seq<nat>, steps: seq<Step>, n: nat, pair: Pair)
    requires IsRun(states, movers, steps) && n <= |steps|
    requires pair in states[n].rows
    ensures states[n].effects[pair] >= 1
  {
    EffectsAreAccounted(states, movers, steps, n);
    assert Accounted(states[n], pair);
  }

  // ----- when a side effect is one too many

  /** A repeat is only ever noticed on a row that exists. */
  ghost predicate RepeatsAreRecorded(s: System) {
    forall pair :: s.repeats[pair] > 0 ==> pair in s.rows
  }

  lemma StepKeepsRepeatsRecorded(s: System, i: nat, step: Step)
    requires Enabled(s, i, step) && RepeatsAreRecorded(s)
    ensures RepeatsAreRecorded(Next(s, i, step))
  {
  }

  lemma {:induction false} RunKeepsRepeatsRecorded(states: seq<System>, movers: seq<nat>, steps: seq<Step>, n: nat)
    requires IsRun(states, movers, steps) && n <= |steps|
    ensures RepeatsAreRecorded(states[n])
  {
    if n > 0 {
      RunKeepsRepeatsRecorded(states, movers, steps, n - 1);
      StepKeepsRepeatsRecorded(states[n - 1], movers[n - 1], steps[n - 1]);
    }
  }

  lemma {:induction false} WaitingIff(procs: seq<Proc>, pair: Pair)
    ensures Sum(Waiting(procs, pair)) > 0 <==> exists j :: 0 <= j < |procs| && procs[j] == Completed(pair)
  {
    if procs != [] {
      var n := |procs| - 1;
      WaitingIff(procs[..n], pair);
      assert Waiting(procs, pair)[..n] == Waiting(procs[..n], pair);
      if j :| 0 <= j < n && procs[j] == Completed(pair) {
        assert procs[..n][j] == Completed(pair);
      }
    }
  }

  /** Some process finished the plugin's work on the pair and has yet to record it. */
  ghost predicate IsAwaitingRecord(s: System, pair: Pair) {
    exists j :: 0 <= j < |s.procs| && s.procs[j] == Completed(pair)
  }

  /** The accounts after a completion, read off the state before it. */
  lemma CompletionAccounts(s: System, i: nat, pair: Pair)
    requires Enabled(s, i, Complete) && s.procs[i] == Checked(pair)
    requires Accounted(s, pair) && RepeatsAreRecorded(s)
    ensures var next := Next(s, i, Complete);
            next.effects[pair] > 1 + next.losses[pair] <==> pair in s.rows || IsAwaitingRecord(s, pair)
  {
    StepAccounts(s, i, Complete, pair);
    WaitingUpdate(s.procs, i, Completed(pair), pair);
    WaitingIff(s.procs, pair);
  }

  /**
   * Exactly when completing the plugin's work makes one side effect too many: the pair is
   * recorded by then, or another process has done the work and not recorded it.
   */
  lemma CompletingRepeatsIff(states: seq<System>, movers: seq<nat>, steps: seq<Step>, n: nat, pair: Pair)
    requires IsRun(states, movers, steps) && n < |steps|
    requires steps[n] == Complete && states[n].procs[movers[n]] == Checked(pair)
    ensures states[n + 1].effects[pair] > 1 + states[n + 1].losses[pair]
            <==> pair in states[n].rows || IsAwaitingRecord(states[n], pair)
  {
    EffectsAreAccounted(states, movers, steps, n);
    RunKeepsRepeatsRecorded(states, movers, steps, n);
    assert Accounted(states[n], pair);
    CompletionAccounts(states[n], movers[n], pair);
  }

  /** No other step adds a side effect or takes a loss back. */
  lemma OtherStepsAddNothing(s: System, i: nat, step: Step, pair: Pair)
    requires Enabled(s, i, step)
    requires !(step == Complete && s.procs[i] == Checked(pair))
    ensures Next(s, i, step).effects[pair] == s.effects[pair] && Next(s, i, step).losses[pair] >= s.losses[pair]
  {
  }

  // ----- without overlap

  predicate Works(proc: Proc, pair: Pair) {
    proc == Checked(pair) || proc == Completed(pair)
  }

  /** No two processes are at work on one pair. */
  ghost predicate Serial(s: System) {
    forall i, j, pair :: 0 <= i < j < |s.procs| && Works(s.procs[i], pair) ==> !Works(s.procs[j], pair)
  }

  /** Whoever works on a pair saw no row, and there still is none; nothing was done twice. */
  ghost predicate SerialInv(s: System) {
    s.repeats == multiset{} && forall i :: 0 <= i < |s.procs| && !s.procs[i].Idle? ==> s.procs[i].pair !in s.rows
  }

  lemma SerialStep(s: System, i: nat, step: Step)
    requires Enabled(s, i, step) && Serial(s) && SerialInv(s)
    ensures SerialInv(Next(s, i, step))
  {
    var next := Next(s, i, step);
    forall j | 0 <= j < |next.procs| && !next.procs[j].Idle? ensures next.procs[j].pair !in next.rows {
      if j != i {
        assert Works(s.procs[j], s.procs[j].pair);
      }
    }
  }

  lemma {:induction false} SerialRunsDoNotRepeat(states: seq<System>, movers: seq<nat>, steps: seq<Step>, n: nat)
    requires IsRun(states, movers, steps) && n <= |steps|
    requires forall m :: 0 <= m < n ==> Serial(states[m])
    ensures SerialInv(states[n])
  {
    if n > 0 {
      SerialRunsDoNotRepeat(states, movers, steps, n - 1);
      SerialStep(states[n - 1], movers[n - 1], steps[n - 1]);
    }
  }

  /** In a serial state the process about to complete is alone with its pair, and nothing is recorded. */
  lemma SerialCompletionIsFirst(s: System, i: nat, pair: Pair)
    requires i < |s.procs| && s.procs[i] == Checked(pair) && Serial(s) && SerialInv(s)
    ensures pair !in s.rows && !IsAwaitingRecord(s, pair)
  {
    forall j | 0 <= j < |s.procs| ensures s.procs[j] != Completed(pair) {
      if j != i {
        var first, second := if j < i then j else i, if j < i then i else j;
        assert Works(s.procs[first], pair) ==> !Works(s.procs[second], pair);
      }
    }
  }

  /** When runs on one pair do not overlap, side effects are at most one more than the processes lost. */
  lemma {:induction false} AtMostOncePlusLosses(states: seq<System>, movers: seq<nat>, steps: seq<Step>,
                                                n: nat, pair: Pair)
    requires IsRun(states, movers, steps) && n <= |steps|
    requires forall m :: 0 <= m < n ==> Serial(states[m])
    ensures states[n].effects[pair] <= 1 + states[n].losses[pair]
  {
    if n > 0 {
      AtMostOncePlusLosses(states, movers, steps, n - 1, pair);
      if steps[n - 1] == Complete && states[n - 1].procs[movers[n - 1]] == Checked(pair) {
        SerialRunsDoNotRepeat(states, movers, steps, n - 1);
        SerialCompletionIsFirst(states[n - 1], movers[n - 1], pair);
        CompletingRepeatsIff(states, movers, steps, n - 1, pair);
      } else {
        OtherStepsAddNothing(states[n - 1], movers[n - 1], steps[n - 1], pair);
      }
    }
  }

  /** Overlapping runs do repeat the side effect: both look before either records. */
  lemma OverlapRepeats(pair: Pair)
    ensures var idle := System([], [Idle, Idle], multiset{}, multiset{}, multiset{});
            var states := [idle,
                           idle.(procs := [Checked(pair), Idle]),
                           idle.(procs := [Checked(pair), Checked(pair)]),
                           idle.(procs := [Completed(pair), Checked(pair)], effects := multiset{pair}),
                           idle.(procs := [Completed(pair), Completed(pair)], effects := multiset{pair, pair})];
            && IsRun(states, [0, 1, 0, 1], [Check(pair), Check(pair), Complete, Complete])
            && states[4].effects[pair] == 2 && states[4].losses[pair] == 0
  {
    assert [Idle, Idle][0 := Checked(pair)] == [Checked(pair), Idle];
    assert [Checked(pair), Idle][1 := Checked(pair)] == [Checked(pair), Checked(pair)];
    assert [Checked(pair), Checked(pair)][0 := Completed(pair)] == [Completed(pair), Checked(pair)];
    assert [Completed(pair), Checked(pair)][1 := Completed(pair)] == [Completed(pair), Completed(pair)];
  }
}
