/** DocumentCrudRepositoryProxy: the invocation handler behind a user's
    repository interface. `save` and `update` go to a CrudRepository that
    forwards to the DocumentRepository; `findByXxx` becomes a query on
    attribute `xxx`; everything else returns null. */
module CrudProxy {
  import opened Values
  import opened Mapping
  import opened Conditions
  import opened Text
  import opened DocumentStore
  import ClassRepresentations

  // ---- name derivation and dispatch choice ----

  /** The attribute a `findBy` method queries: the method name with every
      "findBy" removed and its first character lower-cased. An empty
      remainder fails at `charAt(0)`. */
  function AttributeName(methodName: string): (r: Result<string>)
    ensures r.Err? <==> RemoveAll(methodName, "findBy") == []
    ensures r.Err? ==> r.error == StringIndexOutOfBounds(0)
    ensures r.Ok? ==> var rest := RemoveAll(methodName, "findBy");
                      |r.value| == |rest| && r.value[0] == ToLower(rest[0]) && r.value[1..] == rest[1..]
  {
    var findBy := RemoveAll(methodName, "findBy");
    if findBy == [] then Err(StringIndexOutOfBounds(0))
    else Ok([ToLower(findBy[0])] + findBy[1..])
  }

  /** `findBy` followed by a name in which "findBy" does not occur queries
      that name with its first letter lower-cased. */
  lemma AttributeNameOfFindBy(rest: string)
    requires rest != [] && NoOccurrence(rest, "findBy")
    ensures AttributeName("findBy" + rest) == Ok([ToLower(rest[0])] + rest[1..])
  {
    RemoveAllLeading("findBy", rest);
    RemoveAllWithoutOccurrence(rest, "findBy");
  }

  /** The name "findBy" alone leaves nothing to lower-case. */
  lemma AttributeNameOfBareFindBy()
    ensures AttributeName("findBy") == Err(StringIndexOutOfBounds(0))
  {
    RemoveAllLeading("findBy", "");
    assert "findBy" + "" == "findBy";
  }

  lemma AttributeNameOfFindByName()
    ensures AttributeName("findByName") == Ok("name")
  {
    assert "findByName" == "findBy" + "Name";
    AttributeNameOfFindBy("Name");
    assert ToLower('N') == 'n';
    assert [ToLower('N')] + "Name"[1..] == "name";
  }

  datatype MethodKind = Delegated | FindBy | DeleteBy | Unhandled

  /** The branch of `invoke` a method name takes: the `save`/`update` switch
      comes before the prefix tests. */
  function KindOf(methodName: string): (k: MethodKind)
    ensures k == Delegated <==> methodName == "save" || methodName == "update"
    ensures k == FindBy <==> k != Delegated && StartsWith(methodName, "findBy")
    ensures k == DeleteBy <==> k != Delegated && !StartsWith(methodName, "findBy") && StartsWith(methodName, "deleteBy")
  {
    if methodName == "save" || methodName == "update" then Delegated
    else if StartsWith(methodName, "findBy") then FindBy
    else if StartsWith(methodName, "deleteBy") then DeleteBy
    else Unhandled
  }

  /** A method of the user's repository interface: its name, whether
      CrudRepository (an interface the forwarding repository implements)
      declares it, whether its first parameter is an Iterable, whether a
      Duration (time to live) follows it, and its return type. */
  datatype RepositoryMethod = RepositoryMethod(name: string, declaredByCrudRepository: bool, takesIterable: bool,
                                               takesTtl: bool, returnType: JavaClass)

  // ---- DocumentCrudRepository ----

  /** The CrudRepository handed `save` and `update`: each call forwards,
      unchanged, to the DocumentRepository. */
  class DocumentCrudRepository {
    const repository: DocumentTemplate

    constructor(repository: DocumentTemplate)
      ensures this.repository == repository
    {
      this.repository := repository;
    }

    method Save(entity: Value) returns (r: Value)
      requires repository.Valid()
      modifies repository
      ensures repository.Valid() && r == entity
      ensures repository.entities == old(repository.entities)[IdOf(entity, repository.idName) := entity]
      ensures repository.log == old(repository.log) + [Call.Save(entity)]
    {
      r := repository.Save(entity);
    }

    method SaveAll(entities: seq<Value>) returns (r: seq<Value>)
      requires repository.Valid()
      modifies repository
      ensures repository.Valid() && r == entities
      ensures repository.entities == PutAll(old(repository.entities), entities, repository.idName)
      ensures repository.log == old(repository.log) + [Call.SaveAll(entities)]
    {
      r := repository.SaveAll(entities);
    }

    method SaveWithTtl(entity: Value, ttl: Value) returns (r: Value)
      requires repository.Valid()
      modifies repository
      ensures repository.Valid() && r == entity
      ensures repository.entities == old(repository.entities)[IdOf(entity, repository.idName) := entity]
      ensures repository.log == old(repository.log) + [Call.SaveWithTtl(entity, ttl)]
    {
      r := repository.SaveWithTtl(entity, ttl);
    }

    method SaveAllWithTtl(entities: seq<Value>, ttl: Value) returns (r: seq<Value>)
      requires repository.Valid()
      modifies repository
      ensures repository.Valid() && r == entities
      ensures repository.entities == PutAll(old(repository.entities), entities, repository.idName)
      ensures repository.log == old(repository.log) + [Call.SaveAllWithTtl(entities, ttl)]
    {
      r := repository.SaveAllWithTtl(entities, ttl);
    }

    method Update(entity: Value) returns (r: Value)
      requires repository.Valid()
      modifies repository
      ensures repository.Valid() && r == entity
      ensures repository.entities == old(repository.entities)[IdOf(entity, repository.idName) := entity]
      ensures repository.log == old(repository.log) + [Call.Update(entity)]
    {
      r := repository.Update(entity);
    }

    method UpdateAll(entities: seq<Value>) returns (r: seq<Value>)
      requires repository.Valid()
      modifies repository
      ensures repository.Valid() && r == entities
      ensures repository.entities == PutAll(old(repository.entities), entities, repository.idName)
      ensures repository.log == old(repository.log) + [Call.UpdateAll(entities)]
    {
      r := repository.UpdateAll(entities);
    }
  }

  /** The repository method a logged call went to: its name, whether it
      takes an Iterable, and whether it takes a time to live. */
  function Overload(c: Call): (string, bool, bool)
  {
    match c
    case Insert(_) => ("insert", false, false)
    case InsertAll(_) => ("insert", true, false)
    case Update(_) => ("update", false, false)
    case UpdateAll(_) => ("update", true, false)
    case Save(_) => ("save", false, false)
    case SaveAll(_) => ("save", true, false)
    case SaveWithTtl(_, _) => ("save", false, true)
    case SaveAllWithTtl(_, _) => ("save", true, true)
    case Delete(_) => ("delete", false, false)
  }

  /** The arguments a logged call was given, a batch as one Iterable. */
  function Arguments(c: Call): seq<Value>
  {
    match c
    case Insert(e) => [e]
    case InsertAll(es) => [List(es)]
    case Update(e) => [e]
    case UpdateAll(es) => [List(es)]
    case Save(e) => [e]
    case SaveAll(es) => [List(es)]
    case SaveWithTtl(e, ttl) => [e, ttl]
    case SaveAllWithTtl(es, ttl) => [List(es), ttl]
    case Delete(_) => []
  }

  /** The call `method.invoke(crudRepository, args)` makes on the
      repository: the CrudRepository overload with the method's own name and
      parameters, given the same arguments. None when `invoke` rejects the
      call: the method is not one CrudRepository declares, CrudRepository has
      no `update` with a time to live, or the arguments do not fit the
      parameters. */
  function DelegatedCall(m: RepositoryMethod, args: seq<Value>): (r: Option<Call>)
    requires KindOf(m.name) == Delegated
    ensures r.Some? <==>
      m.declaredByCrudRepository && |args| == (if m.takesTtl then 2 else 1) &&
      (m.takesIterable ==> args[0].List?) && (m.name == "save" || !m.takesTtl)
    ensures r.Some? ==> Overload(r.value) == (m.name, m.takesIterable, m.takesTtl) && Arguments(r.value) == args
  {
    if !m.declaredByCrudRepository || |args| != (if m.takesTtl then 2 else 1) || (m.takesIterable && !args[0].List?) then None
    else if m.name == "save" then
      Some(match (m.takesIterable, m.takesTtl)
           case (false, false) => Call.Save(args[0])
           case (true, false) => Call.SaveAll(args[0].items)
           case (false, true) => Call.SaveWithTtl(args[0], args[1])
           case (true, true) => Call.SaveAllWithTtl(args[0].items, args[1]))
    else if m.takesTtl then None
    else Some(if m.takesIterable then Call.UpdateAll(args[0].items) else Call.Update(args[0]))
  }

  /** The stored entities after a delegated call with these arguments: one
      entity under its id, or a batch stored one after the other. */
  function StoredAfter(entities: map<Value, Value>, m: RepositoryMethod, args: seq<Value>, idName: string): map<Value, Value>
    requires |args| > 0 && (m.takesIterable ==> args[0].List?)
  {
    if m.takesIterable then PutAll(entities, args[0].items, idName)
    else entities[IdOf(args[0], idName) := args[0]]
  }

  // ---- the invocation handler ----

  class DocumentCrudRepositoryProxy {
    const typeClass: JavaClass
    const repository: DocumentTemplate
    const crudRepository: DocumentCrudRepository
    const classRepresentation: ClassRepresentation

    ghost predicate Valid()
      reads this, repository, crudRepository
    {
      repository.Valid() && crudRepository.repository == repository
    }

    /** The entity class is the repository interface's type argument (found
      reflectively, here given); its representation comes from the registry. */
    constructor(repository: DocumentTemplate,
                classRepresentations: ClassRepresentations.DefaultClassRepresentations,
                typeClass: JavaClass)
      requires repository.Valid()
      modifies classRepresentations
      ensures Valid() && this.repository == repository && this.typeClass == typeClass
      ensures classRepresentations.classes == old(classRepresentations.classes)[typeClass := classRepresentation]
      ensures typeClass in old(classRepresentations.classes) ==>
        classRepresentation == old(classRepresentations.classes)[typeClass] &&
        classRepresentations.createCalls == old(classRepresentations.createCalls)
      ensures typeClass !in old(classRepresentations.classes) ==>
        classRepresentation == classRepresentations.create(typeClass) &&
        classRepresentations.createCalls == old(classRepresentations.createCalls) + 1
      ensures classRepresentations.representations == old(classRepresentations.representations)
    {
      this.repository := repository;
      this.crudRepository := new DocumentCrudRepository(repository);
      this.typeClass := typeClass;
      var representation := classRepresentations.Get(typeClass);
      this.classRepresentation := representation;
    }

    /** `invoke(proxy, method, args)`. */
    method Invoke(m: RepositoryMethod, args: seq<Value>) returns (r: Result<Value>)
      requires Valid()
      modifies repository
      ensures Valid()
      // save and update: forwarded with the same arguments
      ensures KindOf(m.name) == Delegated ==>
        match DelegatedCall(m, args)
        case None => r == Err(IllegalArgument) && unchanged(repository)
        case Some(call) =>
          repository.log == old(repository.log) + [call] &&
          repository.entities == StoredAfter(old(repository.entities), m, args, repository.idName) &&
          r == Ok(args[0])
      // anything else leaves the repository untouched
      ensures KindOf(m.name) != Delegated ==> unchanged(repository)
      ensures KindOf(m.name) == FindBy ==>
        match AttributeName(m.name)
        case Err(e) => r == Err(e)
        case Ok(attribute) =>
          if |args| == 0 then r == Err(NullPointer(""))
          else if typeClass != m.returnType then r == Ok(Null)
          else
            var query := Query(classRepresentation.name, Some(Eq(attribute, args[0])));
            r.Ok? &&
            (r.value == Null <==>
               forall k :: k in repository.entities ==> !Satisfies(query.condition, repository.entities[k], repository.evaluate)) &&
            (r.value != Null ==>
               r.value in repository.entities.Values && Satisfies(query.condition, r.value, repository.evaluate))
      ensures KindOf(m.name) == DeleteBy || KindOf(m.name) == Unhandled ==> r == Ok(Null)
    {
      var methodName := m.name;
      if methodName == "save" || methodName == "update" {
        r := InvokeCrud(m, args);
        return;
      }
      if StartsWith(methodName, "findBy") {
        var findBy := RemoveAll(methodName, "findBy");
        if findBy == [] {
          return Err(StringIndexOutOfBounds(0));
        }
        var name := [ToLower(findBy[0])] + findBy[1..];
        if |args| == 0 {
          // a method without parameters is invoked with a null `args`
          return Err(NullPointer(""));
        }
        var query := Query(classRepresentation.name, Some(Eq(name, args[0])));
        if typeClass == m.returnType {
          var optional := repository.SingleResult(query);
          if optional.Some? {
            assert optional.value != Null by {
              var k :| k in repository.entities && repository.entities[k] == optional.value;
            }
            return Ok(optional.value);
          } else {
            return Ok(Null);
          }
        }
      } else if StartsWith(methodName, "deleteBy") {
      }
      return Ok(Null);
    }

    /** `method.invoke(crudRepository, args)` for `save` and `update`: the
      overload is the one the method declares; arguments that do not fit it
      are rejected. */
    method InvokeCrud(m: RepositoryMethod, args: seq<Value>) returns (r: Result<Value>)
      requires Valid() && (m.name == "save" || m.name == "update")
      modifies repository
      ensures Valid()
      ensures match DelegatedCall(m, args)
        case None => r == Err(IllegalArgument) && unchanged(repository)
        case Some(call) =>
          repository.log == old(repository.log) + [call] &&
          repository.entities == StoredAfter(old(repository.entities), m, args, repository.idName) &&
          r == Ok(args[0])
    {
      if DelegatedCall(m, args).None? {
        return Err(IllegalArgument);
      }
      var entity := args[0];
      if m.name == "save" && !m.takesIterable && !m.takesTtl {
        var saved := crudRepository.Save(entity);
        return Ok(saved);
      } else if m.name == "save" && m.takesIterable && !m.takesTtl {
        var saved := crudRepository.SaveAll(entity.items);
        return Ok(List(saved));
      } else if m.name == "save" && !m.takesIterable {
        var saved := crudRepository.SaveWithTtl(entity, args[1]);
        return Ok(saved);
      } else if m.name == "save" {
        var saved := crudRepository.SaveAllWithTtl(entity.items, args[1]);
        return Ok(List(saved));
      } else if !m.takesIterable {
        var updated := crudRepository.Update(entity);
        return Ok(updated);
      } else {
        var updated := crudRepository.UpdateAll(entity.items);
        return Ok(List(updated));
      }
    }
  }
}
