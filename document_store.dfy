/** The document backend behind the repositories (DocumentTemplate, and the
    DocumentRepository the CRUD proxy forwards to), as an abstract store:
    the stored entities keyed by id, and a log of the changing calls made. */
module DocumentStore {
  import opened Values
  import opened Conditions

  /** A call that changes the store, as recorded in its log. */
  datatype Call =
    | Insert(entity: Value)
    | InsertAll(entities: seq<Value>)
    | Update(entity: Value)
    | UpdateAll(entities: seq<Value>)
    | Save(entity: Value)
    | SaveAll(entities: seq<Value>)
    | SaveWithTtl(entity: Value, ttl: Value)
    | SaveAllWithTtl(entities: seq<Value>, ttl: Value)
    | Delete(query: DeleteQuery)

  /** The id of an entity: its attribute under the store's id attribute name. */
  function IdOf(entity: Value, idName: string): Value
  {
    Attribute(entity, idName)
  }

  /** Whether a stored entity satisfies a condition. Equality and the logical
      connectives are evaluated here; the remaining operators are left to the
      backend's own `evaluate`. */
  function Matches(c: Condition, entity: Value, evaluate: (Condition, Value) -> bool): bool
  {
    match c
    case Eq(name, value) => entity.Ref? && name in entity.obj.attributes && entity.obj.attributes[name] == value
    case Not(operand) => !Matches(operand, entity, evaluate)
    case And(left, right) => Matches(left, entity, evaluate) && Matches(right, entity, evaluate)
    case Or(left, right) => Matches(left, entity, evaluate) || Matches(right, entity, evaluate)
    case _ => evaluate(c, entity)
  }

  function Satisfies(condition: Option<Condition>, entity: Value, evaluate: (Condition, Value) -> bool): bool
  {
    condition.None? || Matches(condition.value, entity, evaluate)
  }

  /** Stores `entities` one after the other, each under its id. */
  function PutAll(m: map<Value, Value>, entities: seq<Value>, idName: string): (r: map<Value, Value>)
    ensures r.Keys == m.Keys + set e | e in entities :: IdOf(e, idName)
    decreases |entities|
  {
    if entities == [] then m
    else PutAll(m[IdOf(entities[0], idName) := entities[0]], entities[1..], idName)
  }

  /** Every entity is stored under its own id. */
  ghost predicate KeyedById(m: map<Value, Value>, idName: string)
  {
    forall k :: k in m ==> IdOf(m[k], idName) == k
  }

  lemma {:induction false} PutAllKeyedById(m: map<Value, Value>, entities: seq<Value>, idName: string)
    requires KeyedById(m, idName)
    ensures KeyedById(PutAll(m, entities, idName), idName)
    decreases |entities|
  {
    if entities != [] {
      PutAllKeyedById(m[IdOf(entities[0], idName) := entities[0]], entities[1..], idName);
    }
  }

  /** An equality condition on the id attribute with a non-null id matches a
      stored entity exactly when it is stored under that id. */
  lemma IdConditionMatchesKey(m: map<Value, Value>, idName: string, id: Value, k: Value,
                              evaluate: (Condition, Value) -> bool)
    requires KeyedById(m, idName) && id != Null && k in m
    ensures Matches(Eq(idName, id), m[k], evaluate) <==> k == id
  {
  }

  class DocumentTemplate {
    /** The attribute entities are keyed by. */
    const idName: string
    /** The backend's semantics of the comparison and `like` operators. */
    const evaluate: (Condition, Value) -> bool
    var entities: map<Value, Value>
    var log: seq<Call>

    ghost predicate Valid()
      reads this
    {
      KeyedById(entities, idName)
    }

    constructor(idName: string, evaluate: (Condition, Value) -> bool)
      ensures Valid() && this.idName == idName && this.evaluate == evaluate
      ensures entities == map[] && log == []
    {
      this.idName := idName;
      this.evaluate := evaluate;
      entities := map[];
      log := [];
    }

    method Insert(entity: Value) returns (r: Value)
      requires Valid()
      modifies this
      ensures Valid() && r == entity
      ensures entities == old(entities)[IdOf(entity, idName) := entity]
      ensures log == old(log) + [Call.Insert(entity)]
    {
      entities := entities[IdOf(entity, idName) := entity];
      log := log + [Call.Insert(entity)];
      r := entity;
    }

    method InsertAll(batch: seq<Value>) returns (r: seq<Value>)
      requires Valid()
      modifies this
      ensures Valid() && r == batch
      ensures entities == PutAll(old(entities), batch, idName)
      ensures log == old(log) + [Call.InsertAll(batch)]
    {
      PutAllKeyedById(entities, batch, idName);
      entities := PutAll(entities, batch, idName);
      log := log + [Call.InsertAll(batch)];
      r := batch;
    }

    method Update(entity: Value) returns (r: Value)
      requires Valid()
      modifies this
      ensures Valid() && r == entity
      ensures entities == old(entities)[IdOf(entity, idName) := entity]
      ensures log == old(log) + [Call.Update(entity)]
    {
      entities := entities[IdOf(entity, idName) := entity];
      log := log + [Call.Update(entity)];
      r := entity;
    }

    method UpdateAll(batch: seq<Value>) returns (r: seq<Value>)
      requires Valid()
      modifies this
      ensures Valid() && r == batch
      ensures entities == PutAll(old(entities), batch, idName)
      ensures log == old(log) + [Call.UpdateAll(batch)]
    {
      PutAllKeyedById(entities, batch, idName);
      entities := PutAll(entities, batch, idName);
      log := log + [Call.UpdateAll(batch)];
      r := batch;
    }

    method Save(entity: Value) returns (r: Value)
      requires Valid()
      modifies this
      ensures Valid() && r == entity
      ensures entities == old(entities)[IdOf(entity, idName) := entity]
      ensures log == old(log) + [Call.Save(entity)]
    {
      entities := entities[IdOf(entity, idName) := entity];
      log := log + [Call.Save(entity)];
      r := entity;
    }

    method SaveAll(batch: seq<Value>) returns (r: seq<Value>)
      requires Valid()
      modifies this
      ensures Valid() && r == batch
      ensures entities == PutAll(old(entities), batch, idName)
      ensures log == old(log) + [Call.SaveAll(batch)]
    {
      PutAllKeyedById(entities, batch, idName);
      entities := PutAll(entities, batch, idName);
      log := log + [Call.SaveAll(batch)];
      r := batch;
    }

    /** `save(entity, ttl)`: stored like `save`; expiry is the backend's. */
    method SaveWithTtl(entity: Value, ttl: Value) returns (r: Value)
      requires Valid()
      modifies this
      ensures Valid() && r == entity
      ensures entities == old(entities)[IdOf(entity, idName) := entity]
      ensures log == old(log) + [Call.SaveWithTtl(entity, ttl)]
    {
      entities := entities[IdOf(entity, idName) := entity];
      log := log + [Call.SaveWithTtl(entity, ttl)];
      r := entity;
    }

    method SaveAllWithTtl(batch: seq<Value>, ttl: Value) returns (r: seq<Value>)
      requires Valid()
      modifies this
      ensures Valid() && r == batch
      ensures entities == PutAll(old(entities), batch, idName)
      ensures log == old(log) + [Call.SaveAllWithTtl(batch, ttl)]
    {
      PutAllKeyedById(entities, batch, idName);
      entities := PutAll(entities, batch, idName);
      log := log + [Call.SaveAllWithTtl(batch, ttl)];
      r := batch;
    }

    /** Removes every stored entity the query's condition matches. */
    method Delete(query: DeleteQuery)
      requires Valid()
      modifies this
      ensures Valid()
      ensures entities == map k | k in old(entities) && !Satisfies(query.condition, old(entities)[k], evaluate)
                            :: old(entities)[k]
      ensures log == old(log) + [Call.Delete(query)]
    {
      entities := map k | k in entities && !Satisfies(query.condition, entities[k], evaluate) :: entities[k];
      log := log + [Call.Delete(query)];
    }

    /** `singleResult(query)`: some stored entity the condition matches, if any. */
    method SingleResult(query: Query) returns (r: Option<Value>)
      ensures r.Some? ==> r.value in entities.Values && Satisfies(query.condition, r.value, evaluate)
      ensures r.None? <==> forall k :: k in entities ==> !Satisfies(query.condition, entities[k], evaluate)
    {
      if k :| k in entities && Satisfies(query.condition, entities[k], evaluate) {
        r := Some(entities[k]);
      } else {
        r := None;
      }
    }
  }
}
