/**
 * The schema migration engine of backend/app/database/schema_migration.py: one version
 * table, any number of concurrent upgraders, transient lock errors, failing operations and
 * crashes between any two steps.
 */
module SchemaMigration {
  import opened Common

  const MAX_LOCK_RETRIES := 8

  /** A transactional operation is rolled back with its revision record; revision 1 commits on its own. */
  datatype Migration = Migration(revision: nat, transactional: bool)

  /** Revisions are positive and strictly ascending. */
  ghost predicate Ascending(registry: seq<Migration>) {
    && (forall i :: 0 <= i < |registry| ==> registry[i].revision > 0)
    && (forall i, j :: 0 <= i < j < |registry| ==> registry[i].revision < registry[j].revision)
  }

  function Revisions(registry: seq<Migration>): (revisions: seq<nat>)
    ensures |revisions| == |registry|
  {
    seq(|registry|, i requires 0 <= i < |registry| => registry[i].revision)
  }

  /** `max(rows) if rows else 0`. */
  function CurrentVersion(rows: seq<nat>): nat {
    if rows == [] then 0
    else
      var rest, last := CurrentVersion(rows[..|rows| - 1]), rows[|rows| - 1];
      if last > rest then last else rest
  }

  /** How many migrations are not above `applied`; the pending ones are the rest. */
  function FirstPending(registry: seq<Migration>, applied: nat): (at: nat)
    ensures at <= |registry|
  {
    if registry == [] || registry[0].revision > applied then 0
    else 1 + FirstPending(registry[1..], applied)
  }

  /** The recorded revisions are an initial segment of the registry, each recorded once. */
  ghost predicate IsInitialSegment(registry: seq<Migration>, rows: seq<nat>) {
    |rows| <= |registry| && rows == Revisions(registry)[..|rows|]
  }

  lemma {:induction false} CurrentVersionOfSegment(registry: seq<Migration>, rows: seq<nat>)
    requires Ascending(registry) && IsInitialSegment(registry, rows)
    ensures CurrentVersion(rows) == if rows == [] then 0 else registry[|rows| - 1].revision
    decreases |rows|
  {
    if rows != [] {
      CurrentVersionOfSegment(registry, rows[..|rows| - 1]);
    }
  }

  lemma {:induction false} FirstPendingCounts(registry: seq<Migration>, applied: nat, k: nat)
    requires Ascending(registry) && k <= |registry|
    requires forall i :: 0 <= i < |registry| ==> (registry[i].revision <= applied <==> i < k)
    ensures FirstPending(registry, applied) == k
    decreases k
  {
    if k > 0 {
      var rest := registry[1..];
      forall i | 0 <= i < |rest| ensures rest[i].revision <= applied <==> i < k - 1 {
        assert rest[i] == registry[i + 1];
      }
      FirstPendingCounts(rest, applied, k - 1);
    }
  }

  /** What an upgrader finds pending is exactly what is not recorded. */
  lemma PendingIsUnrecorded(registry: seq<Migration>, rows: seq<nat>)
    requires Ascending(registry) && IsInitialSegment(registry, rows)
    ensures FirstPending(registry, CurrentVersion(rows)) == |rows|
  {
    CurrentVersionOfSegment(registry, rows);
    FirstPendingCounts(registry, CurrentVersion(rows), |rows|);
  }

  lemma RecordedIffBelow(registry: seq<Migration>, rows: seq<nat>, i: nat)
    requires Ascending(registry) && IsInitialSegment(registry, rows) && i < |registry|
    ensures registry[i].revision in rows <==> i < |rows|
  {
    assert forall k :: 0 <= k < |rows| ==> rows[k] == registry[k].revision;
  }

  // ----- one upgrader, run in sequence

  datatype UpgradeError = Locked | OperationFailed

  /** How the k-th attempt at a migration goes; in LostRace a concurrent caller commits the revision first. */
  datatype Attempt = Clean | LockError | Raises | LostRace

  class SchemaMigrator {
    const registry: seq<Migration>
    var rows: seq<nat>

    constructor (registry: seq<Migration>, rows: seq<nat>)
      ensures this.registry == registry && this.rows == rows
    {
      this.registry, this.rows := registry, rows;
    }

    method ApplyMigration(migration: Migration, attempts: nat -> Attempt) returns (result: Result<bool, UpgradeError>)
      modifies this
      ensures result == Err(Locked) <==> forall k :: 0 <= k < 9 ==> attempts(k) == LockError
      ensures result == Err(OperationFailed) ==> exists k :: 0 <= k < 9 && attempts(k) == Raises
      ensures result.Err? ==> rows == old(rows)
      ensures result.Ok? ==>
              rows == if migration.revision in old(rows) then old(rows) else old(rows) + [migration.revision]
      ensures result == Ok(true) ==> migration.revision !in old(rows)
    {
      var attempt := 0;
      while true
        invariant rows == old(rows) && attempt <= MAX_LOCK_RETRIES
        invariant forall k :: 0 <= k < attempt ==> attempts(k) == LockError
        decreases MAX_LOCK_RETRIES - attempt
      {
        if attempts(attempt) == LockError {
          if attempt < MAX_LOCK_RETRIES {
            attempt := attempt + 1;
            continue;
          }
          return Err(Locked);
        }
        if migration.revision in rows {
          return Ok(false);
        }
        if attempts(attempt) == Raises {
          return Err(OperationFailed);
        }
        // A concurrent winner's commit, or this one's: either way the revision is recorded now.
        rows := rows + [migration.revision];
        return Ok(attempts(attempt) == Clean);
      }
    }

    /** A normal return leaves every revision recorded; any return leaves an initial segment. */
    method UpgradeSchema(attempts: nat -> nat -> Attempt) returns (result: Result<nat, UpgradeError>)
      requires Ascending(registry) && IsInitialSegment(registry, rows)
      modifies this
      ensures IsInitialSegment(registry, rows) && |rows| >= |old(rows)|
      ensures (forall i: nat, k: nat :: attempts(i)(k) == Clean || attempts(i)(k) == LostRace) ==> result.Ok?
      ensures result.Ok? ==> rows == Revisions(registry)
      ensures result.Ok? ==> result.value == if registry == [] then 0 else registry[|registry| - 1].revision
    {
      var applied := CurrentVersion(rows);
      var first := FirstPending(registry, applied);
      PendingIsUnrecorded(registry, rows);
      for i := first to |registry|
        invariant IsInitialSegment(registry, rows) && |rows| == i
      {
        RecordedIffBelow(registry, rows, i);
        CommitKeepsSegment(registry, rows, i);
        var step := ApplyMigration(registry[i], attempts(i));
        if step.Err? {
          assert exists k: nat :: attempts(i)(k) != Clean && attempts(i)(k) != LostRace by {
            assert step.error == Locked ==> attempts(i)(0) == LockError;
          }
          return Err(step.error);
        }
        if step.value {
          applied := registry[i].revision;
        }
      }
      CurrentVersionOfSegment(registry, rows);
      result := Ok(CurrentVersion(rows));
    }
  }

  // ----- any number of upgraders, interleaved

  datatype Phase = Begun | Checked | Ran

  datatype Upgrader =
    | Stopped
    | Applying(next: nat, attempt: nat, phase: Phase)
    | Returned(version: nat)

  /**
   * Begin reads the current version; Check, Operate and Commit are the steps of one
   * migration's transaction; LockError and OtherError may replace any of them; Crash ends
   * the process; Finish re-reads the version and returns it.
   */
  datatype Action = Begin | Check | Operate | Commit | LockFault | OtherFault | Crash | Finish

  /** `effects` holds the revisions whose operation is in force. */
  datatype System = System(rows: seq<nat>, effects: set<nat>, upgraders: seq<Upgrader>)

  datatype Event = Event(upgrader: nat, action: Action)

  function Next(i: nat): Upgrader {
    Applying(i + 1, 0, Begun)
  }

  function Step(registry: seq<Migration>, s: System, e: Event): System {
    if e.upgrader >= |s.upgraders| then s
    else
      var u := s.upgraders[e.upgrader];
      match e.action
      case Begin =>
        if u.Applying? then s
        else s.(upgraders :=
                s.upgraders[e.upgrader := Applying(FirstPending(registry, CurrentVersion(s.rows)), 0, Begun)])
      case Crash => s.(upgraders := s.upgraders[e.upgrader := Stopped])
      case Finish =>
        if u.Applying? && u.next >= |registry|
        then s.(upgraders := s.upgraders[e.upgrader := Returned(CurrentVersion(s.rows))]) else s
      case _ =>
        if !u.Applying? || u.next >= |registry| then s else StepTransaction(registry, s, e, u)
  }

  function StepTransaction(registry: seq<Migration>, s: System, e: Event, u: Upgrader): System
    requires e.upgrader < |s.upgraders| && u.Applying? && u.next < |registry|
  {
    var m := registry[u.next];
    match e.action
    case Check =>
      if u.phase != Begun then s
      else s.(upgraders :=
              s.upgraders[e.upgrader := if m.revision in s.rows then Next(u.next) else u.(phase := Checked)])
    case Operate =>
      if u.phase != Checked then s
      else s.(effects := if m.transactional then s.effects else s.effects + {m.revision},
              upgraders := s.upgraders[e.upgrader := u.(phase := Ran)])
    case Commit =>
      if u.phase != Ran then s
      else if m.revision in s.rows then
        s.(upgraders := s.upgraders[e.upgrader := Next(u.next)])
      else
        System(s.rows + [m.revision], s.effects + {m.revision}, s.upgraders[e.upgrader := Next(u.next)])
    case LockFault =>
      s.(upgraders := s.upgraders[e.upgrader :=
        if u.attempt < MAX_LOCK_RETRIES then Applying(u.next, u.attempt + 1, Begun) else Stopped])
    case _ => s.(upgraders := s.upgraders[e.upgrader := Stopped])
  }

  function Run(registry: seq<Migration>, s: System, events: seq<Event>): System {
    if events == [] then s
    else Step(registry, Run(registry, s, events[..|events| - 1]), events[|events| - 1])
  }

  /** No upgrader is ahead of the table, and whoever returned found everything recorded. */
  ghost predicate UpgraderFits(registry: seq<Migration>, rows: seq<nat>, u: Upgrader) {
    match u
    case Stopped => true
    case Applying(next, attempt, _) => next <= |rows| && attempt <= MAX_LOCK_RETRIES
    case Returned(version) => rows == Revisions(registry) && version == CurrentVersion(rows)
  }

  /** Operation and record come and go together, except that an operation outside the transaction may be early. */
  ghost predicate EffectsFit(registry: seq<Migration>, s: System) {
    && (forall r :: r in s.rows ==> r in s.effects)
    && (forall r :: r in s.effects ==>
        r in s.rows || exists i :: 0 <= i < |registry| && registry[i].revision == r && !registry[i].transactional)
  }

  ghost predicate Inv(registry: seq<Migration>, s: System) {
    && IsInitialSegment(registry, s.rows)
    && EffectsFit(registry, s)
    && forall i :: 0 <= i < |s.upgraders| ==> UpgraderFits(registry, s.rows, s.upgraders[i])
  }

  lemma CommitKeepsSegment(registry: seq<Migration>, rows: seq<nat>, i: nat)
    requires Ascending(registry) && IsInitialSegment(registry, rows)
    requires i < |registry| && i <= |rows| && registry[i].revision !in rows
    ensures i == |rows| && IsInitialSegment(registry, rows + [registry[i].revision])
  {
    RecordedIffBelow(registry, rows, i);
  }

  lemma StepKeepsInv(registry: seq<Migration>, s: System, e: Event)
    requires Ascending(registry) && Inv(registry, s)
    ensures Inv(registry, Step(registry, s, e))
    ensures s.rows <= Step(registry, s, e).rows
  {
    if e.upgrader < |s.upgraders| {
      var u := s.upgraders[e.upgrader];
      assert UpgraderFits(registry, s.rows, u);
      if e.action == Begin {
        PendingIsUnrecorded(registry, s.rows);
      } else if u.Applying? && u.next < |registry| {
        RecordedIffBelow(registry, s.rows, u.next);
        if e.action == Commit && u.phase == Ran && registry[u.next].revision !in s.rows {
          CommitKeepsSegment(registry, s.rows, u.next);
        }
      }
    }
  }

  /** A fresh database with any number of upgraders that have not begun. */
  function Initial(upgraders: nat): System {
    System([], {}, seq(upgraders, _ => Stopped))
  }

  /**
   * In every interleaving of any number of upgraders, with crashes, lock retries and failing
   * operations: the recorded revisions are an initial segment of the ascending registry, each
   * recorded once, and every recorded revision's operation is in force.
   */
  lemma {:induction false} RecordedIsInitialSegment(registry: seq<Migration>, upgraders: nat, events: seq<Event>)
    requires Ascending(registry)
    ensures Inv(registry, Run(registry, Initial(upgraders), events))
    ensures Distinct(Run(registry, Initial(upgraders), events).rows)
  {
    if events != [] {
      RecordedIsInitialSegment(registry, upgraders, events[..|events| - 1]);
      StepKeepsInv(registry, Run(registry, Initial(upgraders), events[..|events| - 1]), events[|events| - 1]);
    }
    var rows := Run(registry, Initial(upgraders), events).rows;
    assert forall k :: 0 <= k < |rows| ==> rows[k] == registry[k].revision;
  }

  /** An upgrade that returned normally left every revision recorded, and nothing undoes that later. */
  lemma ReturnMeansUpgraded(registry: seq<Migration>, upgraders: nat, events: seq<Event>, u: nat)
    requires Ascending(registry) && u < upgraders
    ensures var s := Run(registry, Initial(upgraders), events);
            |s.upgraders| == upgraders &&
            (s.upgraders[u].Returned? ==>
               && s.rows == Revisions(registry)
               && s.upgraders[u].version == if registry == [] then 0 else registry[|registry| - 1].revision)
  {
    RecordedIsInitialSegment(registry, upgraders, events);
    KeepsUpgraders(registry, Initial(upgraders), events);
    var s := Run(registry, Initial(upgraders), events);
    assert UpgraderFits(registry, s.rows, s.upgraders[u]);
    CurrentVersionOfSegment(registry, s.rows);
  }

  lemma {:induction false} KeepsUpgraders(registry: seq<Migration>, s: System, events: seq<Event>)
    ensures |Run(registry, s, events).upgraders| == |s.upgraders|
  {
    if events != [] {
      KeepsUpgraders(registry, s, events[..|events| - 1]);
    }
  }

  /** Records are never lost: a longer run extends the table of a shorter one. */
  lemma {:induction false} RecordsOnlyGrow(registry: seq<Migration>, upgraders: nat, events: seq<Event>, k: nat)
    requires Ascending(registry) && k <= |events|
    ensures Run(registry, Initial(upgraders), events[..k]).rows <= Run(registry, Initial(upgraders), events).rows
    decreases |events|
  {
    if k == |events| {
      assert events[..k] == events;
    } else {
      var init := events[..|events| - 1];
      RecordsOnlyGrow(registry, upgraders, init, k);
      assert init[..k] == events[..k];
      RecordedIsInitialSegment(registry, upgraders, init);
      StepKeepsInv(registry, Run(registry, Initial(upgraders), init), events[|events| - 1]);
    }
  }

  // ----- an upgrader that is let run gets through

  lemma {:induction false} RunInTwoParts(registry: seq<Migration>, s: System, first: seq<Event>, rest: seq<Event>)
    ensures Run(registry, s, first + rest) == Run(registry, Run(registry, s, first), rest)
  {
    var all := first + rest;
    if rest == [] {
      assert all == first;
    } else {
      var n := |rest| - 1;
      RunInTwoParts(registry, s, first, rest[..n]);
      assert all[..|all| - 1] == first + rest[..n] && all[|all| - 1] == rest[n];
    }
  }

  lemma RunOfOne(registry: seq<Migration>, s: System, e: Event)
    ensures Run(registry, s, [e]) == Step(registry, s, e)
  {
    assert [e][..0] == [];
    assert Run(registry, s, []) == s;
  }

  /** The upgrader acts alone, and nothing goes wrong. */
  ghost predicate IsSolo(events: seq<Event>, i: nat) {
    forall e :: e in events ==>
      e.upgrader == i && e.action != LockFault && e.action != OtherFault && e.action != Crash
  }

  lemma SoloSteps(registry: seq<Migration>, s: System, first: Event, rest: seq<Event>, i: nat)
      returns (events: seq<Event>)
    requires IsSolo([first], i) && IsSolo(rest, i)
    ensures IsSolo(events, i)
    ensures Run(registry, s, events) == Run(registry, Step(registry, s, first), rest)
  {
    events := [first] + rest;
    assert first in [first];
    RunOfOne(registry, s, first);
    RunInTwoParts(registry, s, [first], rest);
  }

  ghost predicate StandsBefore(registry: seq<Migration>, s: System, i: nat, next: nat) {
    && i < |s.upgraders| && IsInitialSegment(registry, s.rows) && next == |s.rows|
    && s.upgraders[i].Applying? && s.upgraders[i].next == next && s.upgraders[i].phase == Begun
  }

  /** One pending migration: checked, run and recorded, with its operation in force. */
  lemma SoloMigrates(registry: seq<Migration>, s: System, i: nat, next: nat) returns (c: System, o: System, t: System)
    requires Ascending(registry) && StandsBefore(registry, s, i, next) && next < |registry|
    ensures c == Step(registry, s, Event(i, Check)) && o == Step(registry, c, Event(i, Operate))
    ensures t == Step(registry, o, Event(i, Commit))
    ensures StandsBefore(registry, t, i, next + 1) && |t.upgraders| == |s.upgraders|
    ensures t.rows == s.rows + [registry[next].revision] && registry[next].revision in t.effects
  {
    RecordedIffBelow(registry, s.rows, next);
    CommitKeepsSegment(registry, s.rows, next);
    c := Step(registry, s, Event(i, Check));
    o := Step(registry, c, Event(i, Operate));
    t := Step(registry, o, Event(i, Commit));
  }

  /** From before any migration, after any survived lock faults, to a normal return. */
  lemma {:induction false} SoloFinishes(registry: seq<Migration>, s: System, i: nat, next: nat)
    returns (events: seq<Event>)
    requires Ascending(registry) && StandsBefore(registry, s, i, next)
    ensures IsSolo(events, i)
    ensures var t := Run(registry, s, events);
            && t.rows == Revisions(registry) && i < |t.upgraders|
            && t.upgraders[i] == Returned(if registry == [] then 0 else registry[|registry| - 1].revision)
    decreases |registry| - next
  {
    if next == |registry| {
      CurrentVersionOfSegment(registry, s.rows);
      events := [Event(i, Finish)];
      RunOfOne(registry, s, events[0]);
    } else {
      var c, o, t := SoloMigrates(registry, s, i, next);
      events := SoloFinishes(registry, t, i, next + 1);
      events := SoloSteps(registry, o, Event(i, Commit), events, i);
      events := SoloSteps(registry, c, Event(i, Operate), events, i);
      events := SoloSteps(registry, s, Event(i, Check), events, i);
    }
  }

  /**
   * From any state the upgraders can reach, one that stopped or returned can begin again and,
   * left alone, records the whole registry and returns its last revision.
   */
  lemma RestartFinishes(registry: seq<Migration>, s: System, i: nat) returns (events: seq<Event>)
    requires Ascending(registry) && Inv(registry, s) && i < |s.upgraders| && !s.upgraders[i].Applying?
    ensures IsSolo(events, i)
    ensures var t := Run(registry, s, events);
            && t.rows == Revisions(registry) && i < |t.upgraders|
            && t.upgraders[i] == Returned(if registry == [] then 0 else registry[|registry| - 1].revision)
  {
    PendingIsUnrecorded(registry, s.rows);
    events := SoloFinishes(registry, Step(registry, s, Event(i, Begin)), i, |s.rows|);
    events := SoloSteps(registry, s, Event(i, Begin), events, i);
  }

  function Locks(i: nat, n: nat): (events: seq<Event>)
    ensures |events| == n
  {
    seq(n, _ => Event(i, LockFault))
  }

  /** A migration outlives eight lock faults in a row and starts over after each; the ninth ends the upgrader. */
  lemma {:induction false} EightLocksAreSurvived(registry: seq<Migration>, s: System, i: nat, n: nat)
    requires i < |s.upgraders| && s.upgraders[i].Applying? && s.upgraders[i].attempt == 0
    requires s.upgraders[i].next < |registry| && n <= 9
    ensures var t := Run(registry, s, Locks(i, n));
            && t.rows == s.rows && t.effects == s.effects && |t.upgraders| == |s.upgraders|
            && (0 < n <= 8 ==> t.upgraders[i] == Applying(s.upgraders[i].next, n, Begun))
            && (n == 9 ==> t.upgraders[i] == Stopped)
            && (n == 0 ==> t == s)
  {
    if n > 0 {
      EightLocksAreSurvived(registry, s, i, n - 1);
      assert Locks(i, n)[..n - 1] == Locks(i, n - 1);
    }
  }

  /** Any other failure, or a crash, ends the upgrader and leaves the table as it was. */
  lemma FaultsStop(registry: seq<Migration>, s: System, e: Event)
    requires e.upgrader < |s.upgraders| && s.upgraders[e.upgrader].Applying?
    requires e.action == Crash || (e.action == OtherFault && s.upgraders[e.upgrader].next < |registry|)
    ensures Step(registry, s, e) == s.(upgraders := s.upgraders[e.upgrader := Stopped])
  {
  }
}
