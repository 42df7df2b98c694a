/** DefaultConverters: one AttributeConverter instance per converter class,
    created lazily on first request and cached for good. */
module Converters {
  import opened Values
  import opened Mapping

  /** An AttributeConverter object. `serial` stands for its Java identity:
      the n-th object Reflections.newInstance creates has serial n. */
  datatype ConverterInstance = ConverterInstance(cls: ConverterClass, serial: nat)

  /** The registry's abstract state: the cached instances and the number of
      instances created so far. */
  datatype Cache = Cache(instances: map<ConverterClass, ConverterInstance>, created: nat)

  /** Every cached instance belongs to the class it is cached under and was
      created by this registry. */
  ghost predicate Consistent(c: Cache)
  {
    forall k :: k in c.instances ==> c.instances[k].cls == k && c.instances[k].serial < c.created
  }

  /** The reference definition of `get`: the cached instance if there is
      one, otherwise a new instance, which is then cached. */
  function Lookup(c: Cache, cls: ConverterClass): (r: (ConverterInstance, Cache))
    ensures cls in r.1.instances && r.1.instances[cls] == r.0
    ensures cls in c.instances ==> r == (c.instances[cls], c)
    ensures cls !in c.instances ==>
      r.0 == ConverterInstance(cls, c.created) && r.1.created == c.created + 1
    ensures r.1.instances.Keys == c.instances.Keys + {cls}
    ensures forall k :: k in c.instances ==> r.1.instances[k] == c.instances[k]
    ensures Consistent(c) ==> Consistent(r.1) && r.0.cls == cls
  {
    if cls in c.instances then
      (c.instances[cls], c)
    else
      var made := ConverterInstance(cls, c.created);
      (made, Cache(c.instances[cls := made], c.created + 1))
  }

  /** Two requests for the same class, one after the other, yield the same
      instance, and the second changes nothing. */
  lemma SingletonLaw(c: Cache, cls: ConverterClass)
    ensures Lookup(Lookup(c, cls).1, cls) == Lookup(c, cls)
  {
  }

  /** An instance created on a miss differs from every instance already cached. */
  lemma MissCreatesDistinctInstance(c: Cache, cls: ConverterClass, other: ConverterClass)
    requires Consistent(c)
    requires cls !in c.instances && other in c.instances
    ensures Lookup(c, cls).0 != c.instances[other]
  {
  }

  class DefaultConverters {
    var attributeConverters: map<ConverterClass, ConverterInstance>
    var created: nat

    ghost predicate Valid()
      reads this
    {
      Consistent(State())
    }

    function State(): Cache
      reads this
    {
      Cache(attributeConverters, created)
    }

    constructor()
      ensures Valid() && State() == Cache(map[], 0)
    {
      attributeConverters := map[];
      created := 0;
    }

    /** `get(converterClass)`; `None` is a null class. */
    method Get(converterClass: Option<ConverterClass>) returns (r: Result<ConverterInstance>)
      requires Valid()
      modifies this
      ensures Valid()
      ensures converterClass.None? ==>
        r == Err(NullPointer("The converterClass is required")) && State() == old(State())
      ensures converterClass.Some? ==>
        var (instance, after) := Lookup(old(State()), converterClass.value);
        r == Ok(instance) && State() == after
    {
      if converterClass.None? {
        return Err(NullPointer("The converterClass is required"));
      }
      var cls := converterClass.value;
      if cls in attributeConverters {
        r := Ok(attributeConverters[cls]);
      } else {
        var converter := ConverterInstance(cls, created);  // reflections.newInstance
        created := created + 1;
        attributeConverters := attributeConverters[cls := converter];
        r := Ok(converter);
      }
    }
  }

  /** A caller's view: two calls of `get` with the same class return the same
      object, and only the first can create one. */
  method GetTwice(converters: DefaultConverters, cls: ConverterClass)
    returns (first: ConverterInstance, second: ConverterInstance)
    requires converters.Valid()
    modifies converters
    ensures converters.Valid()
    ensures first == second && first.cls == cls
    ensures converters.created <= old(converters.created) + 1
  {
    var r1 := converters.Get(Some(cls));
    var r2 := converters.Get(Some(cls));
    first, second := r1.value, r2.value;
  }
}
