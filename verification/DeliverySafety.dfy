/** What every interleaving of the delivery protocol keeps. */
module DeliverySafety {
  import opened Outbox
  import opened DeliveryProtocol

  // ----- records keep their identity

  predicate SameIdentity(r: Record, q: Record) {
    r.event == q.event && r.consumer == q.consumer && r.createdAt == q.createdAt
  }

  /** Time, the table, the events and the record of calls only grow. */
  ghost predicate Extends(s: System, t: System) {
    && |s.rows| <= |t.rows|
    && (forall k :: 0 <= k < |s.rows| ==> SameIdentity(s.rows[k], t.rows[k]))
    && s.events <= t.events
    && s.committed <= t.committed
    && s.log <= t.log
    && s.clock <= t.clock
  }

  lemma EventKeepsIdentity(p: RetryPolicy, r: Record, ev: RowEvent)
    ensures SameIdentity(r, Touched(p, r, ev))
  {
  }

  lemma NextRow(p: RetryPolicy, s: System, a: Action, k: nat)
    requires |s.tallies| == |s.rows| && Enabled(p, s, a) && k < |Grown(s, a)|
    ensures |Next(p, s, a).rows| == |Grown(s, a)| == |Next(p, s, a).tallies|
    ensures Next(p, s, a).rows[k] == Touched(p, Grown(s, a)[k], EventAt(p, s, a, Grown(s, a), k))
    ensures Next(p, s, a).tallies[k]
            == TallyAfter(if k < |s.rows| then s.tallies[k] else NOTHING, EventAt(p, s, a, Grown(s, a), k))
    ensures k < |s.rows| ==> Grown(s, a)[k] == s.rows[k]
  {
  }

  lemma NextExtends(p: RetryPolicy, s: System, a: Action)
    requires |s.tallies| == |s.rows| && Enabled(p, s, a)
    ensures Extends(s, Next(p, s, a))
  {
    forall k | 0 <= k < |s.rows| ensures SameIdentity(s.rows[k], Next(p, s, a).rows[k]) {
      NextRow(p, s, a, k);
      EventKeepsIdentity(p, s.rows[k], EventAt(p, s, a, Grown(s, a), k));
    }
  }

  // ----- one record per pair

  ghost predicate PairsOk(s: System) {
    && |s.tallies| == |s.rows|
    && UniquePairs(s.rows)
    && (forall pair :: pair in s.committed ==> HasRecord(s.rows, pair.0, pair.1))
  }

  lemma {:induction false} MissingFacts(rows: seq<Record>, e: EventId, consumers: seq<ConsumerId>)
    ensures forall c :: c in Missing(rows, e, consumers) <==> c in consumers && !HasRecord(rows, e, c)
  {
    if consumers != [] {
      var n := |consumers| - 1;
      var last := consumers[n];
      MissingFacts(rows, e, consumers[..n]);
      assert HasRecord(rows, e, last) <==> RecordIndex(rows, e, last) < |rows|;
      assert forall c :: c in consumers <==> c in consumers[..n] || c == last;
    }
  }

  lemma AppendingKeepsUnique(rows: seq<Record>, added: seq<Record>)
    requires UniquePairs(rows) && UniquePairs(added)
    requires forall i :: 0 <= i < |added| ==> !HasRecord(rows, added[i].event, added[i].consumer)
    ensures UniquePairs(rows + added)
  {
    var all := rows + added;
    forall i, j | 0 <= i < j < |all| ensures !all[i].IsFor(all[j].event, all[j].consumer) {
      if i < |rows| <= j {
        assert !HasRecord(rows, added[j - |rows|].event, added[j - |rows|].consumer);
      }
    }
  }

  lemma GrownIsUnique(p: RetryPolicy, s: System, a: Action)
    requires PairsOk(s) && Enabled(p, s, a)
    ensures UniquePairs(Grown(s, a))
    ensures forall i :: 0 <= i < |Fresh(s, a)| ==> !HasRecord(s.rows, Fresh(s, a)[i].event, Fresh(s, a)[i].consumer)
  {
    if a.By? && a.step.Commit? {
      MissingFacts(s.rows, a.step.event, a.step.consumers);
    }
    AppendingKeepsUnique(s.rows, Fresh(s, a));
  }

  /** The commit leaves a record for each of its consumers, at the position the hot path will use. */
  lemma CommitCovers(s: System, i: nat, e: EventId, consumers: seq<ConsumerId>, now: real, j: nat)
    requires j < |consumers|
    ensures var rows := Grown(s, By(i, Commit(e, consumers, now)));
            var at := RecordIndex(rows, e, consumers[j]);
            at < |rows| && rows[at].IsFor(e, consumers[j])
  {
    var a := By(i, Commit(e, consumers, now));
    var rows, c := Grown(s, a), consumers[j];
    MissingFacts(s.rows, e, consumers);
    if HasRecord(s.rows, e, c) {
      var k :| 0 <= k < |s.rows| && s.rows[k].IsFor(e, c);
      assert rows[k].IsFor(e, c);
    } else {
      var k :| 0 <= k < |Missing(s.rows, e, consumers)| && Missing(s.rows, e, consumers)[k] == c;
      assert rows[|s.rows| + k].IsFor(e, c);
    }
  }

  lemma HasRecordSurvives(s: System, t: System, e: EventId, c: ConsumerId)
    requires Extends(s, t) && HasRecord(s.rows, e, c)
    ensures HasRecord(t.rows, e, c)
  {
    var k :| 0 <= k < |s.rows| && s.rows[k].IsFor(e, c);
    assert t.rows[k].IsFor(e, c);
  }

  lemma UniqueSurvives(p: RetryPolicy, s: System, a: Action)
    requires PairsOk(s) && Enabled(p, s, a)
    ensures UniquePairs(Next(p, s, a).rows)
  {
    var rows, next := Grown(s, a), Next(p, s, a).rows;
    GrownIsUnique(p, s, a);
    forall i, j | 0 <= i < j < |next| ensures !next[i].IsFor(next[j].event, next[j].consumer) {
      NextRow(p, s, a, i);
      NextRow(p, s, a, j);
      EventKeepsIdentity(p, rows[i], EventAt(p, s, a, rows, i));
      EventKeepsIdentity(p, rows[j], EventAt(p, s, a, rows, j));
    }
  }

  lemma CommittedHaveRecords(p: RetryPolicy, s: System, a: Action, pair: Pair)
    requires PairsOk(s) && Enabled(p, s, a) && pair in Next(p, s, a).committed
    ensures HasRecord(Next(p, s, a).rows, pair.0, pair.1)
  {
    var t := Next(p, s, a);
    NextExtends(p, s, a);
    if pair in s.committed {
      HasRecordSurvives(s, t, pair.0, pair.1);
    } else {
      var j :| 0 <= j < |a.step.consumers| && a.step.consumers[j] == pair.1;
      CommitCovers(s, a.i, a.step.event, a.step.consumers, a.step.now, j);
      var at := RecordIndex(Grown(s, a), pair.0, pair.1);
      NextRow(p, s, a, at);
      EventKeepsIdentity(p, Grown(s, a)[at], EventAt(p, s, a, Grown(s, a), at));
      assert t.rows[at].IsFor(pair.0, pair.1);
    }
  }

  lemma KeepsPairs(p: RetryPolicy, s: System, a: Action)
    requires PairsOk(s) && Enabled(p, s, a)
    ensures PairsOk(Next(p, s, a))
  {
    UniqueSurvives(p, s, a);
    forall pair | pair in Next(p, s, a).committed ensures HasRecord(Next(p, s, a).rows, pair.0, pair.1) {
      CommittedHaveRecords(p, s, a, pair);
    }
  }

  // ----- processes hold rows of the table, in creation order, of stored events

  ghost predicate Stored(s: System, positions: seq<nat>) {
    forall i :: 0 <= i < |positions| ==> positions[i] < |s.rows| && s.rows[positions[i]].event in s.events
  }

  ghost predicate HasReturned(s: System, k: nat)
    requires k < |s.rows|
  {
    Finished(s.rows[k].event, s.rows[k].consumer, true) in s.log
  }

  ghost predicate ProcOk(s: System, proc: Proc) {
    match proc
    case Idle => true
    case Selecting(now) => now <= s.clock
    case Claiming(now, todo, won) => now <= s.clock && OldestFirst(s.rows, won + todo)
    case Delivering(todo, hot) => if hot then Stored(s, todo) else OldestFirst(s.rows, todo)
    case Calling(row, rest, hot) =>
      row < |s.rows| && s.rows[row].event in s.events && if hot then Stored(s, rest) else OldestFirst(s.rows, rest)
    case Returned(row, ok, rest, hot) =>
      row < |s.rows| && (ok ==> HasReturned(s, row)) && if hot then Stored(s, rest) else OldestFirst(s.rows, rest)
  }

  ghost predicate ProcsOk(s: System) {
    forall i :: 0 <= i < |s.procs| ==> ProcOk(s, s.procs[i])
  }

  lemma OldestFirstSurvives(s: System, t: System, positions: seq<nat>)
    requires Extends(s, t) && OldestFirst(s.rows, positions)
    ensures OldestFirst(t.rows, positions)
  {
    assert forall i :: 0 <= i < |positions| ==> SameIdentity(s.rows[positions[i]], t.rows[positions[i]]);
  }

  lemma StoredSurvives(s: System, t: System, positions: seq<nat>)
    requires Extends(s, t) && Stored(s, positions)
    ensures Stored(t, positions)
  {
    assert forall i :: 0 <= i < |positions| ==> SameIdentity(s.rows[positions[i]], t.rows[positions[i]]);
  }

  lemma ProcSurvives(s: System, t: System, proc: Proc)
    requires Extends(s, t) && ProcOk(s, proc)
    ensures ProcOk(t, proc)
  {
    match proc
    case Idle =>
    case Selecting(_) =>
    case Claiming(_, todo, won) => OldestFirstSurvives(s, t, won + todo);
    case Delivering(todo, hot) => ListSurvives(s, t, todo, hot);
    case Calling(row, rest, hot) =>
      ListSurvives(s, t, rest, hot);
      assert SameIdentity(s.rows[row], t.rows[row]);
    case Returned(row, _, rest, hot) =>
      ListSurvives(s, t, rest, hot);
      assert SameIdentity(s.rows[row], t.rows[row]);
  }

  lemma ListSurvives(s: System, t: System, positions: seq<nat>, hot: bool)
    requires Extends(s, t)
    requires if hot then Stored(s, positions) else OldestFirst(s.rows, positions)
    ensures if hot then Stored(t, positions) else OldestFirst(t.rows, positions)
  {
    if hot { StoredSurvives(s, t, positions); } else { OldestFirstSurvives(s, t, positions); }
  }

  lemma OldestFirstDrops(rows: seq<Record>, before: seq<nat>, k: nat, after: seq<nat>)
    requires OldestFirst(rows, before + ([k] + after))
    ensures OldestFirst(rows, (before + [k]) + after) && OldestFirst(rows, before + after)
  {
    var all, some := before + ([k] + after), before + after;
    assert (before + [k]) + after == all;
    forall i, j | 0 <= i < j < |some|
      ensures some[i] < |rows| && some[j] < |rows| && rows[some[i]].createdAt <= rows[some[j]].createdAt
    {
      var x, y := if i < |before| then i else i + 1, if j < |before| then j else j + 1;
      assert all[x] == some[i] && all[y] == some[j];
    }
    forall i | 0 <= i < |some| ensures some[i] < |rows| {
      assert some[i] == all[if i < |before| then i else i + 1];
    }
  }

  lemma CommitIsStored(p: RetryPolicy, s: System, i: nat, step: Step)
    requires PairsOk(s) && step.Commit? && Enabled(p, s, By(i, step))
    ensures Stored(Next(p, s, By(i, step)), HotRows(Grown(s, By(i, step)), step.event, step.consumers))
  {
    var a := By(i, step);
    var rows := Grown(s, a);
    forall j | 0 <= j < |step.consumers|
      ensures var at := HotRows(rows, step.event, step.consumers)[j];
              at < |Next(p, s, a).rows| && Next(p, s, a).rows[at].event in Next(p, s, a).events
    {
      CommitCovers(s, i, step.event, step.consumers, step.now, j);
      var at := RecordIndex(rows, step.event, step.consumers[j]);
      NextRow(p, s, a, at);
      EventKeepsIdentity(p, rows[at], EventAt(p, s, a, rows, at));
    }
  }

  /** The acting process, when it neither commits nor logs: its new state is sound where it stands. */
  lemma QuietStepIsOk(p: RetryPolicy, s: System, proc: Proc, step: Step, rows: seq<Record>)
    requires ProcOk(s, proc) && StepEnabled(p, s, proc, step) && !step.Commit? && !step.Finish? && s.rows <= rows
    ensures ProcOk(s, ProcAfter(p, s, proc, step, rows))
  {
    match step
    case Select(_, _, candidates) => assert [] + candidates == candidates;
    case ClaimNext =>
      assert proc.todo == [proc.todo[0]] + proc.todo[1..];
      OldestFirstDrops(s.rows, proc.won, proc.todo[0], proc.todo[1..]);
    case ClaimsDone => assert proc.won + [] == proc.won;
    case Requeue(_) => HeadDrops(s, proc.todo, proc.hot);
    case Skip => HeadDrops(s, proc.todo, proc.hot);
    case LookupFail(_, _, _) => HeadDrops(s, proc.todo, proc.hot);
    case Start => HeadDrops(s, proc.todo, proc.hot);
    case _ =>
  }

  lemma HeadDrops(s: System, todo: seq<nat>, hot: bool)
    requires todo != [] && if hot then Stored(s, todo) else OldestFirst(s.rows, todo)
    ensures if hot then Stored(s, todo[1..]) else OldestFirst(s.rows, todo[1..])
  {
  }

  lemma ActingProcIsOk(p: RetryPolicy, s: System, i: nat, step: Step)
    requires PairsOk(s) && ProcsOk(s) && Enabled(p, s, By(i, step))
    ensures ProcOk(Next(p, s, By(i, step)), ProcAfter(p, s, s.procs[i], step, Grown(s, By(i, step))))
  {
    var a := By(i, step);
    var proc, t := s.procs[i], Next(p, s, a);
    NextExtends(p, s, a);
    if step.Commit? {
      CommitIsStored(p, s, i, step);
    } else if step.Finish? {
      ProcSurvives(s, t, proc);
      assert SameIdentity(s.rows[proc.row], t.rows[proc.row]);
      assert t.log[|s.log|] == Finished(s.rows[proc.row].event, s.rows[proc.row].consumer, step.ok);
    } else {
      QuietStepIsOk(p, s, proc, step, Grown(s, a));
      ProcSurvives(s, t, ProcAfter(p, s, proc, step, Grown(s, a)));
    }
  }

  lemma KeepsProcs(p: RetryPolicy, s: System, a: Action)
    requires PairsOk(s) && ProcsOk(s) && Enabled(p, s, a)
    ensures ProcsOk(Next(p, s, a))
  {
    var t := Next(p, s, a);
    NextExtends(p, s, a);
    forall i | 0 <= i < |t.procs| ensures ProcOk(t, t.procs[i]) {
      if a.By? && a.i == i {
        ActingProcIsOk(p, s, i, a.step);
      } else {
        ProcSurvives(s, t, s.procs[i]);
      }
    }
  }

  // ----- every record keeps its schedule and its attempt bounds

  ghost predicate RowsOk(p: RetryPolicy, s: System) {
    |s.tallies| == |s.rows| && forall k :: 0 <= k < |s.rows| ==> RowOk(p, s.rows[k], s.tallies[k], s.clock)
  }

  lemma EventIsOk(p: RetryPolicy, s: System, a: Action, k: nat)
    requires ProcsOk(s) && Enabled(p, s, a) && k < |Grown(s, a)|
    ensures EventOk(p, Grown(s, a)[k], EventAt(p, s, a, Grown(s, a), k), s.clock)
  {
    if a.By? {
      assert ProcOk(s, s.procs[a.i]);
    }
  }

  lemma NewRecordIsOk(p: RetryPolicy, e: EventId, c: ConsumerId, now: real, clock: real)
    requires 1 <= p.maxAttempts && now <= clock
    ensures RowOk(p, NewRecord(e, c, now), NOTHING, clock)
  {
  }

  lemma KeepsRows(p: RetryPolicy, s: System, a: Action)
    requires 1 <= p.maxAttempts
    requires RowsOk(p, s) && ProcsOk(s) && Enabled(p, s, a)
    ensures RowsOk(p, Next(p, s, a))
  {
    var t, rows := Next(p, s, a), Grown(s, a);
    forall k | 0 <= k < |rows| ensures RowOk(p, t.rows[k], t.tallies[k], t.clock) {
      var tally := if k < |s.rows| then s.tallies[k] else NOTHING;
      var ev := EventAt(p, s, a, rows, k);
      NextRow(p, s, a, k);
      EventIsOk(p, s, a, k);
      if k >= |s.rows| {
        NewRecordIsOk(p, rows[k].event, rows[k].consumer, rows[k].createdAt, s.clock);
      }
      RowStep(p, rows[k], tally, ev, s.clock);
      ClockMayAdvance(p, t.rows[k], t.tallies[k], s.clock, t.clock);
    }
  }

  lemma ClockMayAdvance(p: RetryPolicy, r: Record, t: Tally, clock: real, later: real)
    requires RowOk(p, r, t, clock) && clock <= later
    ensures RowOk(p, r, t, later)
  {
  }

  // ----- calls are for stored events, and DELIVERED means a call returned

  ghost predicate EntryOk(s: System, entry: Entry) {
    entry.Started? ==> entry.event in s.events && HasRecord(s.rows, entry.event, entry.consumer)
  }

  ghost predicate LogOk(s: System) {
    && (forall j :: 0 <= j < |s.log| ==> EntryOk(s, s.log[j]))
    && (forall k :: 0 <= k < |s.rows| && s.rows[k].state == Delivered ==> HasReturned(s, k))
  }

  lemma EntrySurvives(s: System, t: System, entry: Entry)
    requires Extends(s, t) && EntryOk(s, entry)
    ensures EntryOk(t, entry)
  {
    if entry.Started? {
      HasRecordSurvives(s, t, entry.event, entry.consumer);
    }
  }

  /** A call starts for a stored event only: the lookup says so, or the pipeline has just committed it. */
  lemma NewEntryIsOk(p: RetryPolicy, s: System, a: Action)
    requires PairsOk(s) && ProcsOk(s) && Enabled(p, s, a) && a.By?
    ensures forall entry :: entry in LogOf(Grown(s, a), s.procs[a.i], a.step) ==> EntryOk(Next(p, s, a), entry)
  {
    var proc, t := s.procs[a.i], Next(p, s, a);
    if a.step.Start? {
      NextExtends(p, s, a);
      assert ProcOk(s, proc);
      var k := proc.todo[0];
      assert s.rows[k].IsFor(s.rows[k].event, s.rows[k].consumer);
      EntrySurvives(s, t, Started(s.rows[k].event, s.rows[k].consumer, proc.hot));
    }
  }

  /** A record becomes DELIVERED only by the mark of a process whose call returned normally. */
  lemma BecomesDelivered(p: RetryPolicy, s: System, a: Action, k: nat)
    requires PairsOk(s) && ProcsOk(s) && Enabled(p, s, a) && k < |Grown(s, a)|
    requires Next(p, s, a).rows[k].state == Delivered
    ensures k < |s.rows| && (s.rows[k].state == Delivered || HasReturned(s, k))
  {
    NextRow(p, s, a, k);
    FreshIsPending(s, a, k);
    var ev := EventAt(p, s, a, Grown(s, a), k);
    if Grown(s, a)[k].state != Delivered {
      OnlyDeliverDelivers(p, Grown(s, a)[k], ev);
      DeliverIsWritten(p, s, a, k);
      assert ProcOk(s, s.procs[a.i]);
    }
  }

  lemma FreshIsPending(s: System, a: Action, k: nat)
    requires k < |Grown(s, a)|
    ensures k < |s.rows| || Grown(s, a)[k].state == Pending
  {
  }

  lemma OnlyDeliverDelivers(p: RetryPolicy, r: Record, ev: RowEvent)
    requires r.state != Delivered && Touched(p, r, ev).state == Delivered
    ensures ev.Marking? && ev.mark.Deliver?
  {
  }

  lemma DeliverIsWritten(p: RetryPolicy, s: System, a: Action, k: nat)
    requires Enabled(p, s, a) && k < |Grown(s, a)|
    requires var ev := EventAt(p, s, a, Grown(s, a), k); ev.Marking? && ev.mark.Deliver?
    ensures a.By? && a.step.Write? && s.procs[a.i].Returned? && s.procs[a.i].row == k && s.procs[a.i].ok
  {
  }

  lemma DeliveredSurvives(p: RetryPolicy, s: System, a: Action, k: nat)
    requires PairsOk(s) && ProcsOk(s) && LogOk(s) && Enabled(p, s, a) && k < |Grown(s, a)|
    requires Next(p, s, a).rows[k].state == Delivered
    ensures HasReturned(Next(p, s, a), k)
  {
    BecomesDelivered(p, s, a, k);
    NextExtends(p, s, a);
    assert SameIdentity(s.rows[k], Next(p, s, a).rows[k]);
  }

  lemma KeepsLog(p: RetryPolicy, s: System, a: Action)
    requires PairsOk(s) && ProcsOk(s) && LogOk(s) && Enabled(p, s, a)
    ensures LogOk(Next(p, s, a))
  {
    var t := Next(p, s, a);
    NextExtends(p, s, a);
    forall j | 0 <= j < |t.log| ensures EntryOk(t, t.log[j]) {
      if j < |s.log| {
        EntrySurvives(s, t, s.log[j]);
      } else {
        NewEntryIsOk(p, s, a);
      }
    }
    forall k | 0 <= k < |t.rows| && t.rows[k].state == Delivered ensures HasReturned(t, k) {
      DeliveredSurvives(p, s, a, k);
    }
  }
}
