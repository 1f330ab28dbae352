/** Whole event logs projected onto the entity and relation tables. */
module LifecycleRuns {
  import opened Common
  import opened Entities
  import opened Relations
  import opened Lifecycle

  function Replayed(s: Store, log: seq<Event>): Store {
    if log == [] then s else Projected(Replayed(s, log[..|log| - 1]), log[|log| - 1])
  }

  // ----- terminal states

  ghost predicate EntityEndsStay(rows: EntityRows, next: EntityRows) {
    && (forall x :: x in rows ==> x in next)
    && (forall x :: x in rows && rows[x].deleted ==> next[x].deleted && next[x].status == rows[x].status)
  }

  ghost predicate RelationEndsStay(rows: RelationRows, next: RelationRows) {
    && (forall id :: id in rows ==> id in next)
    && (forall id :: id in rows && !rows[id].active ==> !next[id].active)
  }

  ghost predicate EndsStay(s: Store, t: Store) {
    EntityEndsStay(s.entities, t.entities) && RelationEndsStay(s.relations, t.relations)
  }

  lemma EntityStepKeepsEnds(rows: EntityRows, e: Event)
    ensures EntityEndsStay(rows, EntitiesAfter(rows, e))
  {
  }

  lemma RelationStepKeepsEnds(rows: RelationRows, e: Event)
    ensures RelationEndsStay(rows, RelationsAfter(rows, e))
  {
  }

  lemma StepKeepsEnds(s: Store, e: Event)
    ensures EndsStay(s, Projected(s, e))
  {
    EntityStepKeepsEnds(s.entities, e);
    RelationStepKeepsEnds(s.relations, e);
  }

  /** No event revives a tombstoned entity or an inactive relation, and no row goes away. */
  lemma {:induction false} TerminalStatesAreFinal(s: Store, log: seq<Event>)
    ensures EndsStay(s, Replayed(s, log))
  {
    if log != [] {
      TerminalStatesAreFinal(s, log[..|log| - 1]);
      StepKeepsEnds(Replayed(s, log[..|log| - 1]), log[|log| - 1]);
    }
  }

  // ----- visibility

  ghost predicate Mentioned(log: seq<Event>, x: string) {
    x != "" && exists e :: e in log && e.entityId == x
  }

  ghost predicate Removed(log: seq<Event>, x: string) {
    exists e :: e in log && Removes(e, x)
  }

  lemma EntityStep(rows: EntityRows, e: Event, x: string)
    ensures x in EntitiesAfter(rows, e) <==> x in rows || (e.entityId == x && x != "")
    ensures x in EntitiesAfter(rows, e) ==>
              (EntitiesAfter(rows, e)[x].deleted <==> (x in rows && rows[x].deleted) || Removes(e, x))
  {
  }

  lemma LastOf(log: seq<Event>)
    requires log != []
    ensures forall e :: e in log <==> e in log[..|log| - 1] || e == log[|log| - 1]
  {
    assert log == log[..|log| - 1] + [log[|log| - 1]];
  }

  lemma {:induction false} EntityRowExists(log: seq<Event>, x: string)
    ensures x in Replayed(EMPTY, log).entities <==> Mentioned(log, x)
    ensures Mentioned(log, x) ==> (Replayed(EMPTY, log).entities[x].deleted <==> Removed(log, x))
  {
    if log != [] {
      var init, last := log[..|log| - 1], log[|log| - 1];
      EntityRowExists(init, x);
      EntityStep(Replayed(EMPTY, init).entities, last, x);
      LastOf(log);
      if Removes(last, x) {
        assert last in log;
      }
      if Mentioned(log, x) && !Mentioned(init, x) {
        assert !Removed(init, x) by {
          if e :| e in init && Removes(e, x) { assert Mentioned(init, x); }
        }
      }
    }
  }

  /** An entity is visible exactly when an event names it and none removes it. */
  lemma VisibleIff(log: seq<Event>, x: string)
    ensures Visible(Replayed(EMPTY, log).entities, x) <==> Mentioned(log, x) && !Removed(log, x)
  {
    EntityRowExists(log, x);
  }

  /** Which entities are visible does not depend on the order of the log. */
  lemma VisibilityIsOrderFree(log: seq<Event>, other: seq<Event>, x: string)
    requires multiset(log) == multiset(other)
    ensures Visible(Replayed(EMPTY, log).entities, x) <==> Visible(Replayed(EMPTY, other).entities, x)
  {
    assert forall e :: e in log <==> e in multiset(log);
    assert forall e :: e in other <==> e in multiset(other);
    VisibleIff(log, x);
    VisibleIff(other, x);
  }

  /** The removal event tombstones its entity exactly when its payload lets the relation step pass. */
  lemma RemovalTakesEffect(s: Store, e: Event)
    requires e.kind == EntityRemoved && e.entityId != ""
    ensures e.entityId in Projected(s, e).entities
    ensures Projected(s, e).entities[e.entityId].deleted <==>
              !IsMalformed(e) || (e.entityId in s.entities && s.entities[e.entityId].deleted)
  {
    EntityStep(s.entities, e, e.entityId);
  }

  /** So a failure of one projection step is not isolated from the next: this removal leaves its entity visible. */
  lemma MalformedRemovalLeavesVisible(id: string, x: string, text: string)
    requires x != ""
    ensures var e := Event(id, EntityRemoved, x, map["confidence" := Value(true, text, None)]);
            Visible(Replayed(EMPTY, [e]).entities, x)
  {
    var e := Event(id, EntityRemoved, x, map["confidence" := Value(true, text, None)]);
    assert [e][..0] == [];
    assert Replayed(EMPTY, [e]) == Projected(EMPTY, e);
  }

  // ----- what a visible entity holds

  function MergedAttributes(log: seq<Event>, x: string): map<string, Value> {
    if log == [] then map[]
    else
      var n := |log| - 1;
      if log[n].entityId == x then MergedAttributes(log[..n], x) + log[n].payload else MergedAttributes(log[..n], x)
  }

  function TimesNamed(log: seq<Event>, x: string): nat {
    if log == [] then 0 else TimesNamed(log[..|log| - 1], x) + if log[|log| - 1].entityId == x then 1 else 0
  }

  /** The name of the first event about the entity. */
  function FirstName(log: seq<Event>, x: string): string {
    if log == [] then ""
    else if log[0].entityId == x then log[0].kind.Name()
    else FirstName(log[1..], x)
  }

  lemma {:induction false} FirstNameStays(log: seq<Event>, last: Event, x: string)
    ensures FirstName(log + [last], x)
            == if TimesNamed(log, x) > 0 then FirstName(log, x)
               else if last.entityId == x then last.kind.Name() else ""
    ensures TimesNamed(log, x) > 0 <==> exists e :: e in log && e.entityId == x
  {
    NamedIff(log, x);
    if log != [] {
      FirstNameStays(log[1..], last, x);
      assert (log + [last])[1..] == log[1..] + [last];
      assert forall e :: e in log <==> e == log[0] || e in log[1..];
    }
  }

  lemma {:induction false} NamedIff(log: seq<Event>, x: string)
    ensures TimesNamed(log, x) > 0 <==> exists e :: e in log && e.entityId == x
  {
    if log != [] {
      NamedIff(log[..|log| - 1], x);
      LastOf(log);
    }
  }

  /** Never removed: the payloads merged in log order, the later entry winning, and a version per event. */
  lemma {:induction false} VisibleEntityIsMerge(log: seq<Event>, x: string)
    requires x != "" && !Removed(log, x)
    ensures TimesNamed(log, x) > 0 <==> x in Replayed(EMPTY, log).entities
    ensures x !in Replayed(EMPTY, log).entities ==> MergedAttributes(log, x) == map[]
    ensures x in Replayed(EMPTY, log).entities ==>
              var row := Replayed(EMPTY, log).entities[x];
              row == EntityRow(FirstName(log, x), Unknown, MergedAttributes(log, x), false, TimesNamed(log, x))
  {
    if log != [] {
      var init, last := log[..|log| - 1], log[|log| - 1];
      LastOf(log);
      VisibleEntityIsMerge(init, x);
      assert !Removes(last, x) by { assert last in log; }
      EntityMerges(Replayed(EMPTY, init).entities, last, x);
      assert init + [last] == log;
      FirstNameStays(init, last, x);
    }
  }

  /** An event that does not remove the entity merges its payload when it names it, and leaves it alone otherwise. */
  lemma EntityMerges(rows: EntityRows, e: Event, x: string)
    requires x != "" && !Removes(e, x) && (x in rows ==> !rows[x].deleted)
    ensures var next := EntitiesAfter(rows, e);
            && (x in next <==> x in rows || e.entityId == x)
            && (x in next && e.entityId != x ==> next[x] == rows[x])
            && (x in next && e.entityId == x ==>
                  && !next[x].deleted
                  && next[x].status == (if x in rows then rows[x].status else Unknown)
                  && next[x].entityType == (if x in rows then rows[x].entityType else e.kind.Name())
                  && next[x].attributes == (if x in rows then rows[x].attributes + e.payload else map[] + e.payload)
                  && next[x].version == (if x in rows then rows[x].version + 1 else 1))
  {
  }

  // ----- what a removed entity holds

  lemma {:induction false} DeletedIsTombstoned(log: seq<Event>, x: string)
    requires x in Replayed(EMPTY, log).entities && Replayed(EMPTY, log).entities[x].deleted
    ensures Replayed(EMPTY, log).entities[x].status == Tombstoned
  {
    if log != [] {
      var before := Replayed(EMPTY, log[..|log| - 1]).entities;
      if x in before && before[x].deleted {
        DeletedIsTombstoned(log[..|log| - 1], x);
      }
    }
  }

  /** The removing event merges its own payload like any other, and then buries what it made. */
  lemma RemovalBuriesMerge(log: seq<Event>, x: string)
    requires log != [] && Removes(log[|log| - 1], x) && !Removed(log[..|log| - 1], x)
    ensures x in Replayed(EMPTY, log).entities
    ensures Replayed(EMPTY, log).entities[x]
            == EntityRow(FirstName(log, x), Tombstoned, MergedAttributes(log, x), true, TimesNamed(log, x))
  {
    var init, last := log[..|log| - 1], log[|log| - 1];
    VisibleEntityIsMerge(init, x);
    assert init + [last] == log;
    FirstNameStays(init, last, x);
    RemovalStep(Replayed(EMPTY, init).entities, last, x);
  }

  lemma RemovalStep(rows: EntityRows, e: Event, x: string)
    requires Removes(e, x) && (x in rows ==> !rows[x].deleted)
    ensures var next := EntitiesAfter(rows, e);
            && x in next
            && next[x] == if x in rows
                          then EntityRow(rows[x].entityType, Tombstoned, rows[x].attributes + e.payload, true,
                                         rows[x].version + 1)
                          else EntityRow(e.kind.Name(), Tombstoned, map[] + e.payload, true, 1)
  {
  }

  /** Later events about a removed entity overwrite its row, one after the other, and leave it buried. */
  lemma BuriedEntityIsLast(log: seq<Event>, x: string)
    requires log != [] && x != "" && Removed(log[..|log| - 1], x)
    ensures var before, after := Replayed(EMPTY, log[..|log| - 1]).entities, Replayed(EMPTY, log).entities;
            var last := log[|log| - 1];
            && x in before && x in after
            && after[x] == if last.entityId == x
                           then EntityRow(last.kind.Name(), Tombstoned, last.payload, true, 1)
                           else before[x]
  {
    var init := log[..|log| - 1];
    var e :| e in init && Removes(e, x);
    assert Mentioned(init, x);
    EntityRowExists(init, x);
    DeletedIsTombstoned(init, x);
    BuriedStep(Replayed(EMPTY, init).entities, log[|log| - 1], x);
  }

  lemma BuriedStep(rows: EntityRows, e: Event, x: string)
    requires x != "" && x in rows && rows[x].deleted && rows[x].status == Tombstoned
    ensures var after := EntitiesAfter(rows, e);
            && x in after
            && after[x] == if e.entityId == x then EntityRow(e.kind.Name(), Tombstoned, e.payload, true, 1) else rows[x]
  {
  }

  /** The type of an entity is the name of the event that made it: here, the removal itself. */
  lemma RemovalOfUnknownEntity(id: string, x: string, text: string)
    requires x != ""
    ensures var e := Event(id, EntityRemoved, x, map["note" := Value(true, text, None)]);
            && x in Replayed(EMPTY, [e]).entities
            && Replayed(EMPTY, [e]).entities[x] == EntityRow("entity.removed", Tombstoned, e.payload, true, 1)
  {
    var e := Event(id, EntityRemoved, x, map["note" := Value(true, text, None)]);
    assert [e][..0] == [];
    assert Replayed(EMPTY, [e]) == Projected(EMPTY, e);
    RemovalStep(map[], e, x);
    assert map[] + e.payload == e.payload;
  }

  // ----- relations

  predicate Creates(e: Event, id: string) {
    Establishes(e) && RelationId(e.entityId, Target(e), Kind(e)) == id
  }

  /** The event ends the relation from `source` to `target`, should it exist by then. */
  predicate Ends(e: Event, source: string, target: string, kind: string) {
    Removes(e, source) || Removes(e, target) || Severs(e, RelationId(source, target, kind))
  }

  ghost predicate BarFreeLog(log: seq<Event>) {
    forall e :: e in log && Establishes(e) ==> BarFree(e.entityId) && BarFree(Target(e))
  }

  /** Every row sits at its own identity. */
  ghost predicate Faithful(rows: RelationRows) {
    forall id :: id in rows ==>
      && BarFree(rows[id].source) && BarFree(rows[id].target)
      && RelationId(rows[id].source, rows[id].target, rows[id].kind) == id
  }

  lemma StepIsFaithful(rows: RelationRows, e: Event)
    requires Faithful(rows) && (Establishes(e) ==> BarFree(e.entityId) && BarFree(Target(e)))
    ensures Faithful(RelationsAfter(rows, e))
  {
  }

  lemma {:induction false} LogIsFaithful(log: seq<Event>)
    requires BarFreeLog(log)
    ensures Faithful(Replayed(EMPTY, log).relations)
  {
    if log != [] {
      LastOf(log);
      LogIsFaithful(log[..|log| - 1]);
      StepIsFaithful(Replayed(EMPTY, log[..|log| - 1]).relations, log[|log| - 1]);
    }
  }

  predicate ActiveAfterSave(rows: RelationRows, id: string) {
    id in rows ==> rows[id].active
  }

  /** One event, one relation: created if new, ended if the event says so, never revived. */
  lemma RelationStep(rows: RelationRows, e: Event, source: string, target: string, kind: string)
    requires Faithful(rows) && BarFree(source) && BarFree(target)
    requires Establishes(e) ==> BarFree(e.entityId) && BarFree(Target(e))
    ensures var id := RelationId(source, target, kind);
            var next := RelationsAfter(rows, e);
            && (id in next <==> id in rows || Creates(e, id))
            && (id in next ==> (next[id].active <==> ActiveAfterSave(rows, id) && !Ends(e, source, target, kind)))
  {
    var id := RelationId(source, target, kind);
    var saved := if Establishes(e) then Saved(rows, e.entityId, Target(e), Kind(e), ConfidenceOf(e), e.id) else rows;
    if id in saved {
      RelationIdIsFaithful(saved[id].source, saved[id].target, saved[id].kind, source, target, kind);
      EndStep(saved, e, source, target, kind);
    }
  }

  lemma EndStep(saved: RelationRows, e: Event, source: string, target: string, kind: string)
    requires RelationId(source, target, kind) in saved
    requires saved[RelationId(source, target, kind)].source == source
             && saved[RelationId(source, target, kind)].target == target
    ensures var id := RelationId(source, target, kind);
            var cascaded := if Removes(e, e.entityId) then Cascaded(saved, e.entityId) else saved;
            var severed := if Severs(e, RelationId(SeverSource(e), Target(e), Kind(e)))
                           then Severed(cascaded, RelationId(SeverSource(e), Target(e), Kind(e))) else cascaded;
            id in severed && (severed[id].active <==> saved[id].active && !Ends(e, source, target, kind))
  {
  }

  ghost predicate Created(log: seq<Event>, id: string) {
    exists e :: e in log && Creates(e, id)
  }

  /** A creating event, and at it or later an ending one. */
  ghost predicate CreatedThenEnded(log: seq<Event>, source: string, target: string, kind: string) {
    exists i, j :: 0 <= i <= j < |log| && Creates(log[i], RelationId(source, target, kind))
        && Ends(log[j], source, target, kind)
  }

  lemma CreatedThenEndedGrows(log: seq<Event>, last: Event, source: string, target: string, kind: string)
    requires CreatedThenEnded(log, source, target, kind)
             || (Created(log + [last], RelationId(source, target, kind)) && Ends(last, source, target, kind))
    ensures CreatedThenEnded(log + [last], source, target, kind)
  {
    var all, id := log + [last], RelationId(source, target, kind);
    if CreatedThenEnded(log, source, target, kind) {
      var i, j :| 0 <= i <= j < |log| && Creates(log[i], id) && Ends(log[j], source, target, kind);
      assert Creates(all[i], id) && Ends(all[j], source, target, kind);
    } else {
      var i :| 0 <= i < |all| && Creates(all[i], id);
      assert Ends(all[|log|], source, target, kind);
    }
  }

  lemma CreatedThenEndedStep(log: seq<Event>, last: Event, source: string, target: string, kind: string)
    ensures var id := RelationId(source, target, kind);
            CreatedThenEnded(log + [last], source, target, kind) <==>
              CreatedThenEnded(log, source, target, kind)
                  || (Created(log + [last], id) && Ends(last, source, target, kind))
  {
    var all, id := log + [last], RelationId(source, target, kind);
    if CreatedThenEnded(all, source, target, kind) {
      var i, j :| 0 <= i <= j < |all| && Creates(all[i], id) && Ends(all[j], source, target, kind);
      assert all[i] in all;
      if j < |log| {
        assert Creates(log[i], id) && Ends(log[j], source, target, kind);
      }
    } else if CreatedThenEnded(log, source, target, kind) || (Created(all, id) && Ends(last, source, target, kind)) {
      CreatedThenEndedGrows(log, last, source, target, kind);
    }
  }

  /**
   * A relation exists exactly when some event established it, and is INACTIVE exactly when it
   * was ended at that event or later.
   */
  lemma {:induction false} RelationStatusIff(log: seq<Event>, source: string, target: string, kind: string)
    requires BarFreeLog(log) && BarFree(source) && BarFree(target)
    ensures var id, rows := RelationId(source, target, kind), Replayed(EMPTY, log).relations;
            && (id in rows <==> Created(log, id))
            && (id in rows ==> (!rows[id].active <==> CreatedThenEnded(log, source, target, kind)))
  {
    if log != [] {
      var init, last := log[..|log| - 1], log[|log| - 1];
      LastOf(log);
      RelationStatusIff(init, source, target, kind);
      LogIsFaithful(init);
      RelationStep(Replayed(EMPTY, init).relations, last, source, target, kind);
      assert log == init + [last];
      CreatedThenEndedStep(init, last, source, target, kind);
      NotEndedBeforeCreated(init, source, target, kind);
    }
  }

  lemma NotEndedBeforeCreated(log: seq<Event>, source: string, target: string, kind: string)
    ensures CreatedThenEnded(log, source, target, kind) ==> Created(log, RelationId(source, target, kind))
  {
  }

  // ----- what a relation holds

  function Creations(log: seq<Event>, id: string): nat {
    if log == [] then 0 else Creations(log[..|log| - 1], id) + if Creates(log[|log| - 1], id) then 1 else 0
  }

  function LastCreation(log: seq<Event>, id: string): Option<Event> {
    if log == [] then None
    else if Creates(log[|log| - 1], id) then Some(log[|log| - 1])
    else LastCreation(log[..|log| - 1], id)
  }

  /** What one event leaves of one relation's row. */
  lemma RelationRowStep(rows: RelationRows, e: Event, source: string, target: string, kind: string)
    requires Faithful(rows) && BarFree(source) && BarFree(target)
    requires Establishes(e) ==> BarFree(e.entityId) && BarFree(Target(e))
    ensures var id := RelationId(source, target, kind);
            var next := RelationsAfter(rows, e);
            var created, ended := Creates(e, id), ActiveAfterSave(rows, id) && Ends(e, source, target, kind);
            id in next ==>
              && next[id].source == source && next[id].target == target && next[id].kind == kind
              && (created ==> next[id].confidence == ConfidenceOf(e) && next[id].sourceEvent == e.id)
              && (!created ==> id in rows && next[id].confidence == rows[id].confidence
                               && next[id].sourceEvent == rows[id].sourceEvent)
              && next[id].version == (if id in rows then rows[id].version else 0)
                                     + (if created then 1 else 0) + (if ended then 1 else 0)
  {
    var id := RelationId(source, target, kind);
    var saved := if Establishes(e) then Saved(rows, e.entityId, Target(e), Kind(e), ConfidenceOf(e), e.id) else rows;
    if id in saved {
      RelationIdIsFaithful(saved[id].source, saved[id].target, saved[id].kind, source, target, kind);
      EndKeepsFields(saved, e, source, target, kind);
    }
  }

  lemma EndKeepsFields(saved: RelationRows, e: Event, source: string, target: string, kind: string)
    requires RelationId(source, target, kind) in saved
    requires saved[RelationId(source, target, kind)].source == source
             && saved[RelationId(source, target, kind)].target == target
    ensures var id := RelationId(source, target, kind);
            var cascaded := if Removes(e, e.entityId) then Cascaded(saved, e.entityId) else saved;
            var severed := if Severs(e, RelationId(SeverSource(e), Target(e), Kind(e)))
                           then Severed(cascaded, RelationId(SeverSource(e), Target(e), Kind(e))) else cascaded;
            && id in severed
            && severed[id].(active := saved[id].active, version := saved[id].version) == saved[id]
            && severed[id].version
               == saved[id].version + (if saved[id].active && Ends(e, source, target, kind) then 1 else 0)
  {
  }

  /**
   * After any log a relation names its own ends and type, carries the confidence and the event of
   * its latest establishment, and a version for each establishment and one more for its end. The
   * confidence is the number of the event's entry, or 1 when there is none.
   */
  lemma {:induction false} RelationHolds(log: seq<Event>, source: string, target: string, kind: string)
    requires BarFreeLog(log) && BarFree(source) && BarFree(target)
    ensures var id, rows := RelationId(source, target, kind), Replayed(EMPTY, log).relations;
            id in rows ==>
              && LastCreation(log, id).Some?
              && var r, e := rows[id], LastCreation(log, id).value;
                 && r.source == source && r.target == target && r.kind == kind && r.sourceEvent == e.id
                 && (if "confidence" in e.payload then e.payload["confidence"].number == Some(r.confidence)
                     else r.confidence == 1.0)
                 && r.version == Creations(log, id) + (if r.active then 0 else 1)
    ensures var id := RelationId(source, target, kind);
            id !in Replayed(EMPTY, log).relations ==> Creations(log, id) == 0
  {
    if log != [] {
      var init, last := log[..|log| - 1], log[|log| - 1];
      LastOf(log);
      RelationHolds(init, source, target, kind);
      LogIsFaithful(init);
      RelationStep(Replayed(EMPTY, init).relations, last, source, target, kind);
      RelationRowStep(Replayed(EMPTY, init).relations, last, source, target, kind);
    }
  }

  // ----- which payload entries count

  /** The entry is there and counts: neither empty nor false. */
  predicate Has(e: Event, key: string) {
    key in e.payload && e.payload[key].isTruthy && e.payload[key].text != ""
  }

  /** The target entry goes before the related one, and a severance's source entry before its entity. */
  lemma PayloadPrecedence(e: Event)
    ensures Has(e, "target_entity_id") ==> Target(e) == e.payload["target_entity_id"].text
    ensures !Has(e, "target_entity_id") && Has(e, "related_entity_id") ==>
              Target(e) == e.payload["related_entity_id"].text
    ensures !Has(e, "target_entity_id") && !Has(e, "related_entity_id") ==> Target(e) == ""
    ensures Has(e, "source_entity_id") ==> SeverSource(e) == e.payload["source_entity_id"].text
    ensures !Has(e, "source_entity_id") ==> SeverSource(e) == e.entityId
    ensures Kind(e) == if Has(e, "relation_type") then e.payload["relation_type"].text else ""
  {
  }

  /**
   * Exactly when the relation step raises: on a confidence entry that is no number, unless the
   * event is a severance.
   */
  lemma RaisingTouchesNoRelation(s: Store, e: Event)
    ensures Raises(e) <==> e.kind != RelationSevered && "confidence" in e.payload
                           && e.payload["confidence"].number.None?
    ensures Raises(e) ==> Projected(s, e).relations == s.relations
    ensures Raises(e) ==> forall x :: Visible(s.entities, x) ==> Visible(Projected(s, e).entities, x)
  {
  }

  /**
   * A severance that names another source ends that source's relation and not its own
   * entity's, whatever its confidence.
   */
  lemma SeveranceNamesItsSource(s: Store, e: Event, source: string, target: string, kind: string)
    requires e.kind == RelationSevered && Has(e, "source_entity_id") && e.payload["source_entity_id"].text == source
    requires Has(e, "target_entity_id") && e.payload["target_entity_id"].text == target
    requires Has(e, "relation_type") && e.payload["relation_type"].text == kind
    requires RelationId(source, target, kind) in s.relations && s.relations[RelationId(source, target, kind)].active
    ensures var id, after := RelationId(source, target, kind), Projected(s, e).relations;
            && after.Keys == s.relations.Keys && !after[id].active
            && forall other :: other in after && other != id ==> after[other] == s.relations[other]
  {
    PayloadPrecedence(e);
  }

  // ----- replaying a log

  function Repeated(log: seq<Event>, times: nat): seq<Event> {
    if times == 0 then [] else Repeated(log, times - 1) + log
  }

  lemma {:induction false} RepeatedEvents(log: seq<Event>, times: nat)
    requires 1 <= times
    ensures forall e :: e in Repeated(log, times) <==> e in log
  {
    if times > 1 {
      RepeatedEvents(log, times - 1);
    }
  }

  lemma {:induction false} RepeatedStartsTwice(log: seq<Event>, times: nat)
    requires 2 <= times
    ensures log + log <= Repeated(log, times)
  {
    if times > 2 {
      RepeatedStartsTwice(log, times - 1);
    } else {
      assert Repeated(log, 1) == log;
    }
  }

  /** Once a log was replayed, a relation is INACTIVE as soon as any event of the log ends it, in whatever order. */
  lemma ReplayedStatusIff(log: seq<Event>, times: nat, source: string, target: string, kind: string)
    requires 2 <= times && BarFreeLog(log) && BarFree(source) && BarFree(target)
    ensures var id, rows := RelationId(source, target, kind), Replayed(EMPTY, Repeated(log, times)).relations;
            && (id in rows <==> Created(log, id))
            && (id in rows ==> (!rows[id].active <==> exists e :: e in log && Ends(e, source, target, kind)))
  {
    var all, id := Repeated(log, times), RelationId(source, target, kind);
    RepeatedEvents(log, times);
    RelationStatusIff(all, source, target, kind);
    if Created(log, id) && exists e :: e in log && Ends(e, source, target, kind) {
      var i :| 0 <= i < |log| && Creates(log[i], id);
      var j :| 0 <= j < |log| && Ends(log[j], source, target, kind);
      RepeatedStartsTwice(log, times);
      assert all[i] == (log + log)[i] == log[i];
      assert all[|log| + j] == (log + log)[|log| + j] == log[j];
    }
  }

  /**
   * From the second pass over a log on, further passes change no entity's visibility and no
   * relation's existence or status.
   */
  lemma ReplaySettles(log: seq<Event>, times: nat, x: string, source: string, target: string, kind: string)
    requires 2 <= times && BarFreeLog(log) && BarFree(source) && BarFree(target)
    ensures var twice, more := Replayed(EMPTY, Repeated(log, 2)), Replayed(EMPTY, Repeated(log, times));
            var id := RelationId(source, target, kind);
            && (Visible(twice.entities, x) <==> Visible(more.entities, x))
            && (id in twice.relations <==> id in more.relations)
            && (id in twice.relations ==> twice.relations[id].active == more.relations[id].active)
  {
    RepeatedEvents(log, 2);
    RepeatedEvents(log, times);
    VisibleIff(Repeated(log, 2), x);
    VisibleIff(Repeated(log, times), x);
    ReplayedStatusIff(log, 2, source, target, kind);
    ReplayedStatusIff(log, times, source, target, kind);
  }

  /**
   * The second pass itself changes a relation exactly when the first left it active and some
   * event of the log ends it.
   */
  lemma SecondPassChangesIff(log: seq<Event>, source: string, target: string, kind: string)
    requires BarFreeLog(log) && BarFree(source) && BarFree(target)
    ensures var id := RelationId(source, target, kind);
            var once, twice := Replayed(EMPTY, log).relations, Replayed(EMPTY, Repeated(log, 2)).relations;
            && (id in once <==> id in twice)
            && (id in once ==>
                  (once[id].active != twice[id].active <==>
                   once[id].active && exists e :: e in log && Ends(e, source, target, kind)))
  {
    RelationStatusIff(log, source, target, kind);
    ReplayedStatusIff(log, 2, source, target, kind);
  }

  /** A severance that comes before the relation is established takes effect only on replay. */
  lemma EarlySeveranceActsOnReplay(source: string, target: string, kind: string)
    requires source != "" && target != "" && kind != "" && BarFree(source) && BarFree(target)
    ensures var triple :=
              map["target_entity_id" := Value(true, target, None), "relation_type" := Value(true, kind, None)];
            var log := [Event("1", RelationSevered, source, triple), Event("2", OtherKind("contact"), source, triple)];
            var id := RelationId(source, target, kind);
            && id in Replayed(EMPTY, log).relations && Replayed(EMPTY, log).relations[id].active
            && id in Replayed(EMPTY, Repeated(log, 2)).relations
            && !Replayed(EMPTY, Repeated(log, 2)).relations[id].active
  {
    var triple := map["target_entity_id" := Value(true, target, None), "relation_type" := Value(true, kind, None)];
    var log := [Event("1", RelationSevered, source, triple), Event("2", OtherKind("contact"), source, triple)];
    var id := RelationId(source, target, kind);
    assert log[1] in log && Creates(log[1], id);
    assert log[0] in log && Ends(log[0], source, target, kind);
    RelationStatusIff(log, source, target, kind);
    ReplayedStatusIff(log, 2, source, target, kind);
    assert !Ends(log[1], source, target, kind) && !Creates(log[0], id);
  }
}
