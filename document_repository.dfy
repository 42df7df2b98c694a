/** AbstractDocumentRepository: the Repository template method over a
    DocumentTemplate. `save` checks existence and then updates or inserts;
    the delete and find operations build one equality condition on the id
    field's attribute name. */
module DocumentRepositories {
  import opened Values
  import opened Mapping
  import opened Conditions
  import opened DocumentStore

  /** The entity stored under `id`, if any. */
  function LookupId(m: map<Value, Value>, id: Value): Option<Value>
  {
    if id in m then Some(m[id]) else None
  }

  /** The entities found for `ids`, in the order of `ids`, missing ids skipped. */
  function Hits(m: map<Value, Value>, ids: seq<Value>): seq<Value>
  {
    if ids == [] then [] else (if ids[0] in m then [m[ids[0]]] else []) + Hits(m, ids[1..])
  }

  lemma {:induction false} HitsAppend(m: map<Value, Value>, a: seq<Value>, b: seq<Value>)
    ensures Hits(m, a + b) == Hits(m, a) + Hits(m, b)
  {
    if a == [] {
      assert a + b == b;
    } else {
      assert (a + b)[0] == a[0];
      assert (a + b)[1..] == a[1..] + b;
      HitsAppend(m, a[1..], b);
    }
  }

  /** The hits are exactly the entities stored under some id of `ids`, and
      there are never more hits than ids. */
  lemma {:induction false} HitsAreStored(m: map<Value, Value>, ids: seq<Value>)
    ensures |Hits(m, ids)| <= |ids|
    ensures forall e :: e in Hits(m, ids) <==> exists j :: 0 <= j < |ids| && ids[j] in m && m[ids[j]] == e
  {
    if ids != [] {
      HitsAreStored(m, ids[1..]);
      forall e | e in Hits(m, ids) ensures exists j :: 0 <= j < |ids| && ids[j] in m && m[ids[j]] == e {
        if ids[0] in m && e == m[ids[0]] {
          assert ids[0] in m && m[ids[0]] == e;
        } else {
          assert e in Hits(m, ids[1..]);
          var j :| 0 <= j < |ids[1..]| && ids[1..][j] in m && m[ids[1..][j]] == e;
          assert ids[j + 1] == ids[1..][j];
        }
      }
      forall e | exists j :: 0 <= j < |ids| && ids[j] in m && m[ids[j]] == e ensures e in Hits(m, ids) {
        var j :| 0 <= j < |ids| && ids[j] in m && m[ids[j]] == e;
        if j > 0 {
          assert ids[1..][j - 1] == ids[j];
        }
      }
    }
  }

  /** When every id is stored, the hits are exactly the stored entities, one
      per id and in the same order; when none is, there are no hits. */
  lemma {:induction false} HitsAllOrNothing(m: map<Value, Value>, ids: seq<Value>)
    ensures (forall j :: 0 <= j < |ids| ==> ids[j] in m) ==>
              |Hits(m, ids)| == |ids| && forall j :: 0 <= j < |ids| ==> Hits(m, ids)[j] == m[ids[j]]
    ensures (forall j :: 0 <= j < |ids| ==> ids[j] !in m) ==> Hits(m, ids) == []
  {
    if ids != [] {
      HitsAllOrNothing(m, ids[1..]);
      if forall j :: 0 <= j < |ids| ==> ids[j] in m {
        assert forall j :: 0 <= j < |ids[1..]| ==> ids[1..][j] in m by {
          forall j | 0 <= j < |ids[1..]| ensures ids[1..][j] in m { assert ids[1..][j] == ids[j + 1]; }
        }
      }
      if forall j :: 0 <= j < |ids| ==> ids[j] !in m {
        assert forall j :: 0 <= j < |ids[1..]| ==> ids[1..][j] !in m by {
          forall j | 0 <= j < |ids[1..]| ensures ids[1..][j] !in m { assert ids[1..][j] == ids[j + 1]; }
        }
      }
    }
  }

  /** The index of the first null in `ids`, or |ids| when there is none. */
  function FirstNull(ids: seq<Value>): (n: nat)
    ensures n <= |ids|
    ensures forall j :: 0 <= j < n ==> ids[j] != Null
    ensures n < |ids| ==> ids[n] == Null
  {
    if ids == [] then 0 else if ids[0] == Null then 0 else 1 + FirstNull(ids[1..])
  }

  /** The delete calls issued for `ids`, one equality query each, in order. */
  function DeleteCalls(collection: string, idName: string, ids: seq<Value>): seq<Call>
  {
    if ids == [] then []
    else DeleteCalls(collection, idName, ids[..|ids| - 1]) + [Call.Delete(EqDeleteQuery(collection, idName, ids[|ids| - 1]))]
  }

  /** Deleting by an equality condition on the id attribute removes exactly
      the entity stored under that id. */
  lemma DeleteByIdRemovesKey(m: map<Value, Value>, idName: string, id: Value,
                             evaluate: (Condition, Value) -> bool)
    requires KeyedById(m, idName) && id != Null
    ensures (map k | k in m && !Satisfies(Some(Eq(idName, id)), m[k], evaluate) :: m[k]) == m - {id}
  {
    forall k | k in m {
      IdConditionMatchesKey(m, idName, id, k, evaluate);
    }
  }

  /** The id value `delete(entity)` reads: Null for a null entity. */
  function EntityId(entity: Option<Instance>, idName: string): Value
  {
    if entity.None? then Null else Attribute(Ref(entity.value), idName)
  }

  /** The id values of `entities`, in order. */
  function EntityIds(entities: seq<Option<Instance>>, idName: string): (ids: seq<Value>)
    ensures |ids| == |entities|
    ensures forall j :: 0 <= j < |entities| ==> ids[j] == EntityId(entities[j], idName)
  {
    seq(|entities|, j requires 0 <= j < |entities| => EntityId(entities[j], idName))
  }

  class DocumentRepository {
    /** getTemplate() */
    const template: DocumentTemplate
    /** getClassRepresentation() */
    const classRepresentation: ClassRepresentation

    /** The store is keyed by the attribute of the entity's id field. */
    ghost predicate Valid()
      reads this, template
    {
      template.Valid() &&
      (classRepresentation.id.Some? ==> classRepresentation.id.value.name == template.idName)
    }

    constructor(template: DocumentTemplate, classRepresentation: ClassRepresentation)
      requires template.Valid()
      requires classRepresentation.id.Some? ==> classRepresentation.id.value.name == template.idName
      ensures Valid() && this.template == template && this.classRepresentation == classRepresentation
    {
      this.template := template;
      this.classRepresentation := classRepresentation;
    }

    /** getIdField(): the id field, or IdNotFoundException. */
    function IdField(): (r: Result<FieldMapping>)
      ensures r.Ok? <==> classRepresentation.id.Some?
      ensures r.Ok? ==> r.value == classRepresentation.id.value
      ensures r.Err? ==> r.error == IdNotFound
    {
      if classRepresentation.id.Some? then Ok(classRepresentation.id.value) else Err(IdNotFound)
    }

    /** `findById(id)`: the entity stored under a non-null id. */
    method FindById(id: Value) returns (r: Result<Option<Value>>)
      requires Valid()
      ensures id == Null ==> r == Err(NullPointer("id is required"))
      ensures id != Null && classRepresentation.id.None? ==> r == Err(IdNotFound)
      ensures id != Null && classRepresentation.id.Some? ==> r == Ok(LookupId(template.entities, id))
    {
      if id == Null {
        return Err(NullPointer("id is required"));
      }
      var idField := IdField();
      if idField.Err? {
        return Err(idField.error);
      }
      var query := EqQuery(classRepresentation.name, idField.value.name, id);
      var found := template.SingleResult(query);
      if found.Some? {
        var k :| k in template.entities && template.entities[k] == found.value;
        IdConditionMatchesKey(template.entities, template.idName, id, k, template.evaluate);
      } else if id in template.entities {
        IdConditionMatchesKey(template.entities, template.idName, id, id, template.evaluate);
      }
      return Ok(found);
    }

    /** `existsById(id)`: `findById(id)` is present; its errors propagate. */
    method ExistsById(id: Value) returns (r: Result<bool>)
      requires Valid()
      ensures id == Null ==> r == Err(NullPointer("id is required"))
      ensures id != Null && classRepresentation.id.None? ==> r == Err(IdNotFound)
      ensures id != Null && classRepresentation.id.Some? ==> r == Ok(id in template.entities)
    {
      var found := FindById(id);
      if found.Err? {
        return Err(found.error);
      }
      return Ok(found.value.Some?);
    }

    /** `findById(ids)`: the entities found, in the order of `ids`, missing
      ids skipped. Ids are looked up one after another, so the first id that
      fails decides the error. */
    method FindByIds(ids: Option<seq<Value>>) returns (r: Result<seq<Value>>)
      requires Valid()
      ensures ids.None? ==> r == Err(NullPointer("ids is required"))
      ensures ids == Some([]) ==> r == Ok([])
      ensures ids.Some? && ids.value != [] && classRepresentation.id.None? ==>
        r == Err(if ids.value[0] == Null then NullPointer("id is required") else IdNotFound)
      ensures ids.Some? && classRepresentation.id.Some? ==>
        r == if FirstNull(ids.value) == |ids.value| then Ok(Hits(template.entities, ids.value))
             else Err(NullPointer("id is required"))
    {
      if ids.None? {
        return Err(NullPointer("ids is required"));
      }
      var all := ids.value;
      var found: seq<Value> := [];
      var i := 0;
      while i < |all|
        invariant 0 <= i <= |all|
        invariant forall j :: 0 <= j < i ==> all[j] != Null
        invariant classRepresentation.id.None? ==> i == 0
        invariant found == Hits(template.entities, all[..i])
      {
        var one := FindById(all[i]);
        if one.Err? {
          return Err(one.error);
        }
        HitsAppend(template.entities, all[..i], [all[i]]);
        assert all[..i + 1] == all[..i] + [all[i]];
        found := found + (if one.value.Some? then [one.value.value] else []);
        i := i + 1;
      }
      assert all[..i] == all;
      return Ok(found);
    }

    /** `save(entity)`: a null entity fails; otherwise the entity's id is read
      and `existsById` decides between `update` and `insert`. */
    method Save(entity: Option<Instance>) returns (r: Result<Value>)
      requires Valid()
      modifies template
      ensures Valid()
      ensures entity.None? ==> r == Err(NullPointer("Entity is required"))
      ensures entity.Some? && classRepresentation.id.None? ==> r == Err(IdNotFound)
      ensures entity.Some? && classRepresentation.id.Some? &&
              Attribute(Ref(entity.value), template.idName) == Null ==>
        r == Err(NullPointer("id is required"))
      ensures r.Err? ==> template.entities == old(template.entities) && template.log == old(template.log)
      ensures r.Ok? ==>
        entity.Some? && classRepresentation.id.Some? &&
        var e := Ref(entity.value);
        var id := Attribute(e, template.idName);
        id != Null && r.value == e &&
        template.entities == old(template.entities)[id := e] &&
        template.log == old(template.log) + [if id in old(template.entities) then Call.Update(e) else Call.Insert(e)]
      ensures (entity.Some? && classRepresentation.id.Some? &&
               Attribute(Ref(entity.value), template.idName) != Null) ==> r.Ok?
    {
      if entity.None? {
        return Err(NullPointer("Entity is required"));
      }
      var idField := IdField();
      if idField.Err? {
        return Err(idField.error);
      }
      var e := Ref(entity.value);
      var id := Attribute(e, idField.value.name);
      var present := ExistsById(id);
      if present.Err? {
        return Err(present.error);
      }
      if present.value {
        var updated := template.Update(e);
        r := Ok(updated);
      } else {
        var inserted := template.Insert(e);
        r := Ok(inserted);
      }
    }

    /** `save(entities)`: inserts them all, with no existence check. */
    method SaveAll(entities: seq<Value>) returns (r: seq<Value>)
      requires Valid()
      modifies template
      ensures Valid() && r == entities
      ensures template.entities == PutAll(old(template.entities), entities, template.idName)
      ensures template.log == old(template.log) + [Call.InsertAll(entities)]
    {
      r := template.InsertAll(entities);
    }

    /** `deleteById(id)`: one delete query on the entity name whose condition
      is `id field name = id`; with the store keyed by id it removes exactly
      the entity stored under `id`. */
    method DeleteById(id: Value) returns (r: Result<()>)
      requires Valid()
      modifies template
      ensures Valid()
      ensures id == Null ==> r == Err(NullPointer("is is required"))
      ensures id != Null && classRepresentation.id.None? ==> r == Err(IdNotFound)
      ensures r.Err? ==> template.entities == old(template.entities) && template.log == old(template.log)
      ensures id != Null && classRepresentation.id.Some? ==>
        r == Ok(()) &&
        template.entities == old(template.entities) - {id} &&
        template.log == old(template.log) + [Call.Delete(EqDeleteQuery(classRepresentation.name, template.idName, id))]
    {
      if id == Null {
        return Err(NullPointer("is is required"));
      }
      var idField := IdField();
      if idField.Err? {
        return Err(idField.error);
      }
      var query := EqDeleteQuery(classRepresentation.name, idField.value.name, id);
      DeleteByIdRemovesKey(template.entities, template.idName, id, template.evaluate);
      template.Delete(query);
      return Ok(());
    }

    /** `deleteById(ids)`: `deleteById` of each id in turn, up to the first
      one that fails. */
    method DeleteByIds(ids: Option<seq<Value>>) returns (r: Result<()>)
      requires Valid()
      modifies template
      ensures Valid()
      ensures ids.None? ==>
        r == Err(NullPointer("ids is required")) &&
        template.entities == old(template.entities) && template.log == old(template.log)
      ensures ids.Some? && classRepresentation.id.None? ==>
        template.entities == old(template.entities) && template.log == old(template.log) &&
        (r.Ok? <==> ids.value == []) &&
        (ids.value != [] ==> r.error == if ids.value[0] == Null then NullPointer("is is required") else IdNotFound)
      ensures ids.Some? && classRepresentation.id.Some? ==>
        var n := FirstNull(ids.value);
        (r.Ok? <==> n == |ids.value|) &&
        (r.Err? ==> r.error == NullPointer("is is required")) &&
        template.entities == old(template.entities) - (set j | 0 <= j < n :: ids.value[j]) &&
        template.log == old(template.log) + DeleteCalls(classRepresentation.name, template.idName, ids.value[..n])
    {
      if ids.None? {
        return Err(NullPointer("ids is required"));
      }
      var all := ids.value;
      var i := 0;
      while i < |all|
        invariant 0 <= i <= |all|
        invariant Valid()
        invariant forall j :: 0 <= j < i ==> all[j] != Null
        invariant classRepresentation.id.None? ==> i == 0
        invariant template.entities == old(template.entities) - (set j | 0 <= j < i :: all[j])
        invariant template.log == old(template.log) + DeleteCalls(classRepresentation.name, template.idName, all[..i])
      {
        var one := DeleteById(all[i]);
        if one.Err? {
          return Err(one.error);
        }
        assert all[..i + 1][..i] == all[..i];
        assert (set j | 0 <= j < i + 1 :: all[j]) == (set j | 0 <= j < i :: all[j]) + {all[i]};
        i := i + 1;
      }
      assert all[..i] == all;
      return Ok(());
    }

    /** `delete(entity)`: a null entity fails; otherwise its id value is read,
      must not be null, and is deleted as by `deleteById`. */
    method Delete(entity: Option<Instance>) returns (r: Result<()>)
      requires Valid()
      modifies template
      ensures Valid()
      ensures entity.None? ==> r == Err(NullPointer("entity is required"))
      ensures entity.Some? && classRepresentation.id.None? ==> r == Err(IdNotFound)
      ensures entity.Some? && classRepresentation.id.Some? &&
              Attribute(Ref(entity.value), template.idName) == Null ==>
        r == Err(NullPointer("id value is required"))
      ensures r.Err? ==> template.entities == old(template.entities) && template.log == old(template.log)
      ensures entity.Some? && classRepresentation.id.Some? &&
              Attribute(Ref(entity.value), template.idName) != Null ==>
        var id := Attribute(Ref(entity.value), template.idName);
        r == Ok(()) &&
        template.entities == old(template.entities) - {id} &&
        template.log == old(template.log) + [Call.Delete(EqDeleteQuery(classRepresentation.name, template.idName, id))]
    {
      if entity.None? {
        return Err(NullPointer("entity is required"));
      }
      var idField := IdField();
      if idField.Err? {
        return Err(idField.error);
      }
      var idValue := Attribute(Ref(entity.value), idField.value.name);
      if idValue == Null {
        return Err(NullPointer("id value is required"));
      }
      r := DeleteById(idValue);
    }

    /** `delete(entities)`: `delete` of each entity in turn, up to the first
      one that fails: a null entity, or one whose id value is null. */
    method DeleteAll(entities: Option<seq<Option<Instance>>>) returns (r: Result<()>)
      requires Valid()
      modifies template
      ensures Valid()
      ensures entities.None? ==>
        r == Err(NullPointer("entities is required")) &&
        template.entities == old(template.entities) && template.log == old(template.log)
      ensures entities.Some? && classRepresentation.id.None? ==>
        template.entities == old(template.entities) && template.log == old(template.log) &&
        (r.Ok? <==> entities.value == []) &&
        (entities.value != [] ==>
           r.error == if entities.value[0].None? then NullPointer("entity is required") else IdNotFound)
      ensures entities.Some? && classRepresentation.id.Some? ==>
        var ids := EntityIds(entities.value, template.idName);
        var n := FirstNull(ids);
        (r.Ok? <==> n == |ids|) &&
        (r.Err? ==>
           n < |ids| &&
           r.error == NullPointer(if entities.value[n].None? then "entity is required" else "id value is required")) &&
        template.entities == old(template.entities) - (set j | 0 <= j < n :: ids[j]) &&
        template.log == old(template.log) + DeleteCalls(classRepresentation.name, template.idName, ids[..n])
    {
      if entities.None? {
        return Err(NullPointer("entities is required"));
      }
      var all := entities.value;
      ghost var ids := EntityIds(all, template.idName);
      var i := 0;
      while i < |all|
        invariant 0 <= i <= |all|
        invariant Valid()
        invariant forall j :: 0 <= j < i ==> ids[j] != Null
        invariant classRepresentation.id.None? ==> i == 0
        invariant template.entities == old(template.entities) - (set j | 0 <= j < i :: ids[j])
        invariant template.log == old(template.log) + DeleteCalls(classRepresentation.name, template.idName, ids[..i])
      {
        var one := Delete(all[i]);
        if one.Err? {
          return Err(one.error);
        }
        assert ids[..i + 1][..i] == ids[..i];
        assert (set j | 0 <= j < i + 1 :: ids[j]) == (set j | 0 <= j < i :: ids[j]) + {ids[i]};
        i := i + 1;
      }
      assert ids[..i] == ids;
      return Ok(());
    }
  }
}
