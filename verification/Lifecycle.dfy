/**
 * The entity table: backend/app/entity_repository/sqlalchemy_entity_repository.py and the
 * update path of backend/app/entity_manager/entity_manager.py.
 */
module Entities {
  import opened Common

  /** A payload entry, by all the code asks of it: its truth, its text, and the number it converts to, if any. */
  datatype Value = Value(isTruthy: bool, text: string, number: Option<real>)

  datatype EntityStatus = Unknown | Tombstoned

  datatype EntityRow = EntityRow(entityType: string, status: EntityStatus, attributes: map<string, Value>,
                                 deleted: bool, version: nat)

  /** What the manager reads and writes; a new entity carries no status of its own. */
  datatype EntityData = EntityData(entityId: string, entityType: string, status: Option<EntityStatus>,
                                   attributes: map<string, Value>, version: nat)

  type EntityRows = map<string, EntityRow>

  predicate Visible(rows: EntityRows, x: string) {
    x in rows && !rows[x].deleted
  }

  /** What one update does: merge into a visible entity, overwrite a removed one without reviving it, or create. */
  function Updated(rows: EntityRows, x: string, entityType: string, attributes: map<string, Value>): EntityRows {
    if x !in rows then rows[x := EntityRow(entityType, Unknown, attributes, false, 1)]
    else
      var row := rows[x];
      if row.deleted then rows[x := row.(entityType := entityType, attributes := attributes, version := 1)]
      else rows[x := row.(attributes := row.attributes + attributes, version := row.version + 1)]
  }

  function Buried(rows: EntityRows, x: string): EntityRows {
    if Visible(rows, x) then rows[x := rows[x].(status := Tombstoned, deleted := true)] else rows
  }

  class EntityRepository {
    var rows: EntityRows

    constructor ()
      ensures rows == map[]
    {
      rows := map[];
    }

    /** Deleted rows are not found. */
    method Get(x: string) returns (data: Option<EntityData>)
      ensures data.Some? <==> Visible(rows, x)
      ensures data.Some? ==>
                data.value == EntityData(x, rows[x].entityType, Some(rows[x].status), rows[x].attributes,
                                         rows[x].version)
    {
      if x !in rows || rows[x].deleted {
        return None;
      }
      return Some(EntityData(x, rows[x].entityType, Some(rows[x].status), rows[x].attributes, rows[x].version));
    }

    /** An existing row keeps its deletion mark, and its status unless the data brings one. */
    method Save(data: EntityData)
      modifies this`rows
      ensures var x := data.entityId;
              rows == old(rows)[x := EntityRow(
                data.entityType,
                data.status.GetOr(if x in old(rows) then old(rows)[x].status else Unknown),
                data.attributes,
                x in old(rows) && old(rows)[x].deleted,
                data.version)]
    {
      var x := data.entityId;
      if x in rows {
        var row := rows[x];
        row := row.(entityType := data.entityType, attributes := data.attributes, version := data.version);
        if data.status.Some? {
          row := row.(status := data.status.value);
        }
        rows := rows[x := row];
      } else {
        rows := rows[x := EntityRow(data.entityType, data.status.GetOr(Unknown), data.attributes, false, data.version)];
      }
    }

    method Tombstone(x: string) returns (moved: bool)
      modifies this`rows
      ensures moved <==> Visible(old(rows), x)
      ensures rows == Buried(old(rows), x)
    {
      if x !in rows || rows[x].deleted {
        return false;
      }
      rows := rows[x := rows[x].(status := Tombstoned, deleted := true)];
      return true;
    }

    /** The visible entities, optionally of one type. */
    method ListAll(entityType: Option<string>) returns (ids: set<string>)
      ensures forall x :: x in ids <==>
              Visible(rows, x) && (entityType.Some? ==> rows[x].entityType == entityType.value)
    {
      ids := {};
      var todo := rows.Keys;
      while todo != {}
        invariant todo <= rows.Keys
        invariant forall x :: x in ids <==>
                    x in rows && x !in todo && !rows[x].deleted
                        && (entityType.Some? ==> rows[x].entityType == entityType.value)
        decreases |todo|
      {
        var x :| x in todo;
        todo := todo - {x};
        if !rows[x].deleted && (entityType.None? || rows[x].entityType == entityType.value) {
          ids := ids + {x};
        }
      }
    }
  }

  class EntityManager {
    const repository: EntityRepository

    constructor (repository: EntityRepository)
      ensures this.repository == repository
    {
      this.repository := repository;
    }

    /** Read, change and save under the repository's lock. */
    method ApplyUpdate(entityType: string, x: string, attributes: map<string, Value>)
      modifies repository
      ensures repository.rows == Updated(old(repository.rows), x, entityType, attributes)
    {
      var existing := repository.Get(x);
      if existing.Some? {
        var data := existing.value;
        data := data.(attributes := data.attributes + attributes, version := data.version + 1);
        repository.Save(data);
      } else {
        repository.Save(EntityData(x, entityType, None, attributes, 1));
      }
    }
  }
}

/** The relation table: backend/app/entity_relations/sqlalchemy_relation_repository.py. */
module Relations {

  datatype RelationRow = RelationRow(source: string, target: string, kind: string, confidence: real,
                                     sourceEvent: string, active: bool, version: nat)

  type RelationRows = map<string, RelationRow>

  const BAR := '|'

  /** The text whose digest is the relation's identity; the digest is taken to be injective. */
  function RelationId(source: string, target: string, kind: string): string {
    source + [BAR] + target + [BAR] + kind
  }

  predicate BarFree(s: string) {
    BAR !in s
  }

  /** Where the first separator is, or the length. */
  function FirstBar(s: string): (at: nat)
    ensures at <= |s|
    ensures at < |s| ==> s[at] == BAR
    ensures BarFree(s[..at])
  {
    if s == "" || s[0] == BAR then 0
    else
      assert s[..1 + FirstBar(s[1..])] == [s[0]] + s[1..][..FirstBar(s[1..])];
      1 + FirstBar(s[1..])
  }

  lemma {:induction false} FirstBarOfJoin(a: string, x: string)
    requires BarFree(a)
    ensures FirstBar(a + [BAR] + x) == |a|
    ensures (a + [BAR] + x)[..|a|] == a && (a + [BAR] + x)[|a| + 1..] == x
  {
    if a != "" {
      FirstBarOfJoin(a[1..], x);
      assert (a + [BAR] + x)[1..] == a[1..] + [BAR] + x;
      assert (a + [BAR] + x)[0] == a[0];
    }
  }

  /** Identity is faithful when neither end contains the separator; the kind may. */
  lemma RelationIdIsFaithful(s1: string, t1: string, k1: string, s2: string, t2: string, k2: string)
    requires BarFree(s1) && BarFree(t1) && BarFree(s2) && BarFree(t2)
    ensures RelationId(s1, t1, k1) == RelationId(s2, t2, k2) <==> s1 == s2 && t1 == t2 && k1 == k2
  {
    if RelationId(s1, t1, k1) == RelationId(s2, t2, k2) {
      assert RelationId(s1, t1, k1) == s1 + [BAR] + (t1 + [BAR] + k1);
      assert RelationId(s2, t2, k2) == s2 + [BAR] + (t2 + [BAR] + k2);
      FirstBarOfJoin(s1, t1 + [BAR] + k1);
      FirstBarOfJoin(s2, t2 + [BAR] + k2);
      FirstBarOfJoin(t1, k1);
      FirstBarOfJoin(t2, k2);
    }
  }

  /** With separators in the ends, different relations share an identity. */
  lemma BarsCollide(kind: string)
    ensures RelationId("a|b", "c", kind) == RelationId("a", "b|c", kind)
  {
    assert "a|b" + [BAR] + "c" == "a" + [BAR] + "b|c";
  }

  predicate Touches(row: RelationRow, x: string) {
    row.source == x || row.target == x
  }

  function Ended(row: RelationRow): RelationRow {
    if row.active then row.(active := false, version := row.version + 1) else row
  }

  /** An upsert; an existing relation keeps its status. */
  function Saved(rows: RelationRows, source: string, target: string, kind: string, confidence: real, event: string):
      RelationRows
  {
    var id := RelationId(source, target, kind);
    rows[id := RelationRow(source, target, kind, confidence, event,
                           if id in rows then rows[id].active else true,
                           if id in rows then rows[id].version + 1 else 1)]
  }

  function Cascaded(rows: RelationRows, x: string): RelationRows {
    map id | id in rows :: if Touches(rows[id], x) then Ended(rows[id]) else rows[id]
  }

  function Severed(rows: RelationRows, id: string): RelationRows {
    if id in rows then rows[id := Ended(rows[id])] else rows
  }

  class RelationRepository {
    var rows: RelationRows

    constructor ()
      ensures rows == map[]
    {
      rows := map[];
    }

    method Save(source: string, target: string, kind: string, confidence: real, event: string)
      modifies this`rows
      ensures rows == Saved(old(rows), source, target, kind, confidence, event)
    {
      var id := RelationId(source, target, kind);
      if id in rows {
        var row := rows[id];
        rows := rows[id := row.(source := source, target := target, kind := kind, confidence := confidence,
                                sourceEvent := event, version := row.version + 1)];
      } else {
        rows := rows[id := RelationRow(source, target, kind, confidence, event, true, 1)];
      }
    }

    method InactivateForEntity(x: string) returns (count: nat)
      modifies this`rows
      ensures rows == Cascaded(old(rows), x)
      ensures count == |set id | id in old(rows) && Touches(old(rows)[id], x) && old(rows)[id].active|
    {
      ghost var before := rows;
      var selected := set id | id in rows && Touches(rows[id], x) && rows[id].active;
      var todo := selected;
      count := 0;
      while todo != {}
        invariant todo <= selected
        invariant rows.Keys == before.Keys
        invariant forall id :: id in rows ==>
                  rows[id] == if id in selected && id !in todo then Ended(before[id]) else before[id]
        invariant count + |todo| == |selected|
        decreases |todo|
      {
        var id :| id in todo;
        todo := todo - {id};
        rows := rows[id := rows[id].(active := false, version := rows[id].version + 1)];
        count := count + 1;
      }
    }

    method SeverRelation(id: string) returns (moved: bool)
      modifies this`rows
      ensures moved <==> id in old(rows) && old(rows)[id].active
      ensures rows == Severed(old(rows), id)
    {
      if id !in rows || !rows[id].active {
        return false;
      }
      rows := rows[id := rows[id].(active := false, version := rows[id].version + 1)];
      return true;
    }
  }
}

/**
 * The projection of one event onto both tables: `_composite_projection` of
 * backend/app/composition.py with backend/app/entity_relations/relation_projection.py.
 */
module Lifecycle {
  import opened Common
  import opened Entities
  import opened Relations

  datatype EventKind = EntityRemoved | RelationSevered | OtherKind(name: string) {
    function Name(): string {
      match this
      case EntityRemoved => "entity.removed"
      case RelationSevered => "relation.severed"
      case OtherKind(name) => name
    }
  }

  /** An absent identity is the empty string; both are skipped alike. */
  datatype Event = Event(id: string, kind: EventKind, entityId: string, payload: map<string, Value>)

  function Field(e: Event, key: string): string {
    if key in e.payload && e.payload[key].isTruthy then e.payload[key].text else ""
  }

  /** The confidence entry is there and no number. */
  predicate IsMalformed(e: Event) {
    "confidence" in e.payload && e.payload["confidence"].number.None?
  }

  function Target(e: Event): string {
    if Field(e, "target_entity_id") != "" then Field(e, "target_entity_id") else Field(e, "related_entity_id")
  }

  function Kind(e: Event): string {
    Field(e, "relation_type")
  }

  /** The severance may name its source in the payload. */
  function SeverSource(e: Event): string {
    if Field(e, "source_entity_id") != "" then Field(e, "source_entity_id") else e.entityId
  }

  datatype Store = Store(entities: EntityRows, relations: RelationRows)

  const EMPTY := Store(map[], map[])

  /** Converting a malformed confidence raises outside the projection's own guard. */
  predicate Raises(e: Event) {
    e.kind != RelationSevered && IsMalformed(e)
  }

  /** The event establishes a relation of its entity. */
  predicate Establishes(e: Event) {
    e.kind != RelationSevered && !IsMalformed(e) && e.entityId != "" && Target(e) != "" && Kind(e) != ""
  }

  /** The event takes effect as the removal of its entity. */
  predicate Removes(e: Event, x: string) {
    e.kind == EntityRemoved && !IsMalformed(e) && e.entityId == x && x != ""
  }

  predicate Severs(e: Event, id: string) {
    && e.kind == RelationSevered && SeverSource(e) != "" && Target(e) != "" && Kind(e) != ""
    && RelationId(SeverSource(e), Target(e), Kind(e)) == id
  }

  function EntitiesAfter(rows: EntityRows, e: Event): EntityRows {
    var updated := if e.entityId == "" then rows else Updated(rows, e.entityId, e.kind.Name(), e.payload);
    if Removes(e, e.entityId) then Buried(updated, e.entityId) else updated
  }

  function ConfidenceOf(e: Event): real {
    if "confidence" in e.payload then e.payload["confidence"].number.GetOr(1.0) else 1.0
  }

  function RelationsAfter(rows: RelationRows, e: Event): RelationRows {
    var saved := if Establishes(e) then Saved(rows, e.entityId, Target(e), Kind(e), ConfidenceOf(e), e.id) else rows;
    var cascaded := if Removes(e, e.entityId) then Cascaded(saved, e.entityId) else saved;
    var id := RelationId(SeverSource(e), Target(e), Kind(e));
    if Severs(e, id) then Severed(cascaded, id) else cascaded
  }

  function Projected(s: Store, e: Event): Store {
    Store(EntitiesAfter(s.entities, e), RelationsAfter(s.relations, e))
  }

  class CompositeProjection {
    const manager: EntityManager
    const relations: RelationRepository

    constructor (manager: EntityManager, relations: RelationRepository)
      ensures this.manager == manager && this.relations == relations
    {
      this.manager, this.relations := manager, relations;
    }

    function Stored(): Store
      reads manager.repository, relations
    {
      Store(manager.repository.rows, relations.rows)
    }

    method ProjectRelation(e: Event) returns (raised: bool)
      modifies relations
      ensures raised == Raises(e)
      ensures relations.rows
              == if Establishes(e)
                 then Saved(old(relations.rows), e.entityId, Target(e), Kind(e), ConfidenceOf(e), e.id)
                 else old(relations.rows)
    {
      if e.kind == RelationSevered {
        return false;
      }
      if IsMalformed(e) {
        return true;
      }
      if e.entityId != "" && Target(e) != "" && Kind(e) != "" {
        relations.Save(e.entityId, Target(e), Kind(e), ConfidenceOf(e), e.id);
      }
      return false;
    }

    method ProjectLifecycle(e: Event)
      modifies manager.repository, relations
      ensures manager.repository.rows
              == if e.kind == EntityRemoved && e.entityId != ""
                 then Buried(old(manager.repository.rows), e.entityId)
                 else old(manager.repository.rows)
      ensures relations.rows
              == if e.kind == EntityRemoved && e.entityId != ""
                 then Cascaded(old(relations.rows), e.entityId)
                 else old(relations.rows)
    {
      if e.kind != EntityRemoved || e.entityId == "" {
        return;
      }
      var moved := manager.repository.Tombstone(e.entityId);
      var count := relations.InactivateForEntity(e.entityId);
    }

    method ProjectSeverance(e: Event)
      modifies relations
      ensures var id := RelationId(SeverSource(e), Target(e), Kind(e));
              relations.rows == if Severs(e, id) then Severed(old(relations.rows), id) else old(relations.rows)
    {
      if e.kind != RelationSevered || SeverSource(e) == "" || Target(e) == "" || Kind(e) == "" {
        return;
      }
      var moved := relations.SeverRelation(RelationId(SeverSource(e), Target(e), Kind(e)));
    }

    /** Entity, relation, lifecycle cascade, severance; an error in the second ends the rest. */
    method Project(e: Event) returns (raised: bool)
      modifies manager.repository, relations
      ensures raised == Raises(e)
      ensures Stored() == Projected(old(Stored()), e)
    {
      if e.entityId != "" {
        manager.ApplyUpdate(e.kind.Name(), e.entityId, e.payload);
      }
      raised := ProjectRelation(e);
      if raised {
        return;
      }
      ProjectLifecycle(e);
      ProjectSeverance(e);
    }
  }
}
