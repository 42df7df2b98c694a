/** DefaultClassRepresentations: the entity metadata registry. It keeps a
    class-keyed cache filled on demand by `get` and a name-keyed map filled by
    `init` and `load`; `findByName` searches the latter, ignoring case. */
module ClassRepresentations {
  import opened Values
  import opened Mapping
  import opened Text

  /** The message of the exception `findByName` throws. */
  function NotFoundMessage(name: string): string
  {
    "There is not entity found with the name: " + name
  }

  class DefaultClassRepresentations {
    /** Name-keyed map: filled by `init` and `load`, searched by `findByName`. */
    var representations: map<string, ClassRepresentation>
    /** Class-keyed cache: filled by `init` and on demand by `get`. */
    var classes: map<JavaClass, ClassRepresentation>
    /** ClassConverter.create, which reflects on a class. */
    const create: JavaClass -> ClassRepresentation
    /** How many times `create` has been called. */
    ghost var createCalls: nat

    constructor(create: JavaClass -> ClassRepresentation)
      ensures this.create == create
      ensures representations == map[] && classes == map[] && createCalls == 0
    {
      this.create := create;
      representations := map[];
      classes := map[];
      createCalls := 0;
    }

    /** `init()`: both maps start from the extension's maps. */
    method Init(extensionClasses: map<JavaClass, ClassRepresentation>,
                extensionRepresentations: map<string, ClassRepresentation>)
      modifies this
      ensures classes == extensionClasses && representations == extensionRepresentations
      ensures createCalls == old(createCalls)
    {
      classes := map[];
      representations := map[];
      classes := classes + extensionClasses;
      representations := representations + extensionRepresentations;
    }

    /** `load(classEntity)`: registers a new representation under the class's
      Java name; the class cache is left alone. */
    method Load(classEntity: JavaClass)
      modifies this
      ensures representations == old(representations)[classEntity.name := create(classEntity)]
      ensures classes == old(classes)
      ensures createCalls == old(createCalls) + 1
    {
      var classRepresentation := create(classEntity);
      createCalls := createCalls + 1;
      representations := representations[classEntity.name := classRepresentation];
    }

    /** `get(classEntity)`: the cached representation, or on a miss one made
      by `create`, cached, and found by calling `get` again. */
    method Get(classEntity: JavaClass) returns (r: ClassRepresentation)
      modifies this
      decreases if classEntity in classes then 0 else 1
      ensures classEntity in old(classes) ==>
        r == old(classes)[classEntity] && classes == old(classes) && createCalls == old(createCalls)
      ensures classEntity !in old(classes) ==>
        r == create(classEntity) && classes == old(classes)[classEntity := r] &&
        createCalls == old(createCalls) + 1
      ensures classEntity in classes && classes[classEntity] == r
      ensures representations == old(representations)
    {
      var classRepresentation := if classEntity in classes then Some(classes[classEntity]) else None;
      if classRepresentation.None? {
        var created := create(classEntity);
        createCalls := createCalls + 1;
        classes := classes[classEntity := created];
        r := Get(classEntity);
        return;
      }
      return classRepresentation.value;
    }

    /** `findByName(name)`: some registered representation whose entity name
      equals `name` ignoring case; the key set is visited in no fixed order. */
    method FindByName(name: string) returns (r: Result<ClassRepresentation>)
      ensures r.Ok? ==> EqualsIgnoreCase(r.value.name, name) &&
                        exists k :: k in representations && representations[k] == r.value
      ensures r.Err? ==> r.error == ClassInformationNotFound(NotFoundMessage(name))
      ensures r.Err? <==> forall k :: k in representations ==> !EqualsIgnoreCase(representations[k].name, name)
    {
      var unvisited := representations.Keys;
      while unvisited != {}
        invariant unvisited <= representations.Keys
        invariant forall k :: k in representations.Keys - unvisited ==>
                    !EqualsIgnoreCase(representations[k].name, name)
        decreases unvisited
      {
        var k :| k in unvisited;
        var candidate := representations[k];
        if EqualsIgnoreCase(candidate.name, name) {
          return Ok(candidate);
        }
        unvisited := unvisited - {k};
      }
      return Err(ClassInformationNotFound(NotFoundMessage(name)));
    }
  }

  /** A caller's view: after a first `get`, a second `get` of the same class
      returns the same representation without calling `create`. */
  method GetTwice(registry: DefaultClassRepresentations, classEntity: JavaClass)
    returns (first: ClassRepresentation, second: ClassRepresentation)
    modifies registry
    ensures first == second
    ensures registry.createCalls <= old(registry.createCalls) + 1
    ensures registry.representations == old(registry.representations)
  {
    first := registry.Get(classEntity);
    ghost var calls := registry.createCalls;
    second := registry.Get(classEntity);
    assert registry.createCalls == calls;
  }
}
