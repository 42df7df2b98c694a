# jnosql-artemis core, modelled in Dafny

Artemis is an object-mapping layer for NoSQL databases. It maps annotated Java entities to the generic column and document records of a backend. It also turns repository interfaces and fluent query builders into backend queries. This project models the parts of Artemis that keep state and carry the mapping rules, and proves what they promise:

- **Field values.** `DefaultFieldValue` pairs a field's runtime value with the field's mapping. `ColumnFieldValue` renders such a pair as a column. It applies the field's attribute converter when the field declares one.
- **Converter registry.** `DefaultConverters` keeps one converter instance per converter class. It creates an instance on first request and caches it from then on.
- **Metadata registry.** `DefaultClassRepresentations` holds two maps: a cache keyed by Java class, filled on demand by `get`, and a map keyed by name, filled by `init` and `load`. `findByName` searches the second map, ignoring case.
- **Repository template.** `AbstractDocumentRepository` implements `existsById`, and `save`, `findById`, `deleteById` and `delete` each for one value and for an Iterable of them, with one equality condition on the id field. It runs over an abstract document store.
- **Repository proxy.** `DocumentCrudRepositoryProxy` is the invocation handler behind a user's repository interface. It forwards `save` and `update` to a CrudRepository. It turns `findByXxx(value)` into a query on attribute `xxx`.
- **Delete-query mapper.** `mapperBuilder.deleteFrom(Entity.class)` is a fluent builder keyed by Java field names. It translates each name to the attribute it is stored under and each operand to its stored form. It then emits the delete query the backend's own builder would build.

Files, in dependency order:

- **values.dfy**: Java values, exceptions and `Result`.
- **mapping.dfy**: the entity metadata.
- **conditions.dfy**: queries and condition trees.
- **text.dfy**: the `String` operations the core relies on.
- **field_value.dfy**, **converters.dfy**, **column_field_value.dfy**, **class_representations.dfy**: the field values and the two registries.
- **document_store.dfy**: the backend, as an abstract store.
- **document_repository.dfy**: the repository template.
- **crud_proxy.dfy**: the repository proxy.
- **delete_mapper.dfy**: the delete-query mapper.
- **delete_mapper_tests.dfy**: the mapper's contract stated on concrete entities.

The backend is modelled as a class with two fields:

- the stored entities, keyed by their id attribute;
- a log of the changing calls made to it.

The model evaluates equality, `not`, `and` and `or` itself. The comparison and `like` operators are a function the backend supplies.

Java object identity matters for the converter registry. It is modelled by an allocation serial: the n-th instance created has serial n. Reflection is represented by its results:

- the class metadata returned by `ClassConverter.create`, passed in as a function;
- the entity's id attribute;
- a field's converter and declared type.

Where the code and a description of the design disagree, the model follows the code:

- **`toColumn` never nests a column.** Its two guards compare a `FieldType` enum constant with a `java.lang.reflect.Field`, so neither can hold. An embedded field is therefore rendered like any other field, and no column is ever nested. The model keeps the guards and proves that they never hold.
- **`save(Iterable)` always inserts.** It calls `insert` on the whole batch with no existence check, unlike the single-entity `save`.
- **`deleteById` reports "is is required".** That is the message the code gives for a null id.
- **`findByName` returns some match, not necessarily the first.** It streams the name map's key set, whose order is not fixed. The model may return any matching representation.

## Model

| member | source | states |
|---|---|---|
| FieldValues.New | artemis-core/src/main/java/org/jnosql/artemis/reflection/DefaultFieldValue.java:27-30 | a null field mapping fails with "field is required", and only then; otherwise the getters return exactly the value and mapping given, null value included |
| FieldValues.GetValue | artemis-core/src/main/java/org/jnosql/artemis/reflection/DefaultFieldValue.java:32-35 | the value given to the constructor, null included (stated by NewThenGet) |
| FieldValues.GetField | artemis-core/src/main/java/org/jnosql/artemis/reflection/DefaultFieldValue.java:37-40 | the mapping given to the constructor (stated by NewThenGet) |
| FieldValues.IsNotEmpty | artemis-core/src/main/java/org/jnosql/artemis/reflection/DefaultFieldValue.java:42-45 | a field value is non-empty exactly when its value is not null |
| FieldValues.NewThenGet | artemis-core/src/main/java/org/jnosql/artemis/reflection/DefaultFieldValue.java:27-45 | construction followed by the getters returns the inputs; emptiness depends on the value alone |
| Converters.Lookup | artemis-core/src/main/java/org/jnosql/artemis/DefaultConverters.java:39-49 | after a request the class is cached with the returned instance; a hit returns the cached instance and changes nothing; a miss creates exactly one new instance; other entries stay as they were; consistency of the cache is preserved |
| Converters.SingletonLaw | artemis-core/src/main/java/org/jnosql/artemis/DefaultConverters.java:42-48 | a second request for the same class returns the same instance and leaves the registry as the first left it |
| Converters.MissCreatesDistinctInstance | artemis-core/src/main/java/org/jnosql/artemis/DefaultConverters.java:43-46 | the instance created on a miss is a new object, distinct from every cached one |
| Converters.DefaultConverters.constructor | artemis-core/src/main/java/org/jnosql/artemis/DefaultConverters.java:36 | the registry starts empty, with nothing created |
| Converters.DefaultConverters.Get | artemis-core/src/main/java/org/jnosql/artemis/DefaultConverters.java:39-49 | a null class fails with "The converterClass is required" and changes nothing; otherwise the result and the new state are those of Lookup |
| Converters.GetTwice | artemis-core/src/main/java/org/jnosql/artemis/DefaultConverters.java:39-49 | two calls of `get` with one class return the same object of that class, and at most one object is created |
| ColumnFieldValues.Of | artemis-core/src/main/java/org/jnosql/artemis/column/ColumnFieldValue.java:89-91 | wraps the field value `FieldValue.of` builds, and fails exactly when the field is null |
| ColumnFieldValues.GetValue | artemis-core/src/main/java/org/jnosql/artemis/column/ColumnFieldValue.java:39-42 | the wrapped field value's value (stated by OfDelegates) |
| ColumnFieldValues.GetField | artemis-core/src/main/java/org/jnosql/artemis/column/ColumnFieldValue.java:44-47 | the wrapped field value's mapping (stated by OfDelegates) |
| ColumnFieldValues.IsNotEmpty | artemis-core/src/main/java/org/jnosql/artemis/column/ColumnFieldValue.java:49-52 | the wrapped field value's `isNotEmpty` (stated by OfDelegates) |
| ColumnFieldValues.GetNativeField | artemis-core/src/main/java/org/jnosql/artemis/column/ColumnFieldValue.java:77-79 | the reflect Field of the mapping, never an enum constant (stated by GuardsNeverHold) |
| ColumnFieldValues.IsEmbeddableElement | artemis-core/src/main/java/org/jnosql/artemis/column/ColumnFieldValue.java:70-75 | whether the collection's element class is embeddable, read from the mapping |
| ColumnFieldValues.ColumnOf | artemis-core/src/main/java/org/jnosql/artemis/column/ColumnFieldValue.java:54-67 | the column `toColumn` returns, with the branches of the source; its meaning is stated by ColumnNamedAfterField, ConverterApplied, RawValueWithoutConverter and KindHasNoEffect |
| ColumnFieldValues.OfDelegates | artemis-core/src/main/java/org/jnosql/artemis/column/ColumnFieldValue.java:39-52 | the wrapper's getters and `isNotEmpty` answer what the wrapped field value answers |
| ColumnFieldValues.ColumnNamedAfterField | artemis-core/src/main/java/org/jnosql/artemis/column/ColumnFieldValue.java:54-68 | whatever branch is taken, the column is named after the field's mapped name |
| ColumnFieldValues.ConverterApplied | artemis-core/src/main/java/org/jnosql/artemis/column/ColumnFieldValue.java:61-65 | a field with a converter becomes a column holding the converter's database value |
| ColumnFieldValues.RawValueWithoutConverter | artemis-core/src/main/java/org/jnosql/artemis/column/ColumnFieldValue.java:61-67 | a field without a converter becomes a column holding its raw value |
| ColumnFieldValues.GuardsNeverHold | artemis-core/src/main/java/org/jnosql/artemis/column/ColumnFieldValue.java:56-60 | neither the EMBEDDED guard nor the COLLECTION guard can hold, since each compares an enum constant with a reflect Field |
| ColumnFieldValues.KindHasNoEffect | artemis-core/src/main/java/org/jnosql/artemis/column/ColumnFieldValue.java:54-68 | changing the field's kind does not change the column, and the column is never nested |
| ColumnFieldValues.ToColumn | artemis-core/src/main/java/org/jnosql/artemis/column/ColumnFieldValue.java:54-68 | the column is the one ColumnOf describes; the converter registry changes exactly as its `get` does when the field has a converter, and not at all otherwise |
| Text.Lowered | artemis-core/src/main/java/org/jnosql/artemis/reflection/DefaultClassRepresentations.java:74 | the lower-case form keeps the length and lower-cases each character |
| Text.ToLower | artemis-core/src/main/java/org/jnosql/artemis/document/DocumentCrudRepositoryProxy.java:70 | an upper-case letter becomes the lower-case letter ToUpper maps back to it; any other character is unchanged; no upper-case letter is left |
| Text.EqualsIgnoreCase | artemis-core/src/main/java/org/jnosql/artemis/reflection/DefaultClassRepresentations.java:74 | `equalsIgnoreCase`: the same length and each pair of characters equal after upper-casing or lower-casing (its meaning is stated by EqualsIgnoreCaseIffLoweredEqual) |
| Text.StartsWith | artemis-core/src/main/java/org/jnosql/artemis/document/DocumentCrudRepositoryProxy.java:67 | `startsWith`: the prefix is the string's first characters |
| Text.RemoveAll | artemis-core/src/main/java/org/jnosql/artemis/document/DocumentCrudRepositoryProxy.java:69 | `replace(target, "")` never lengthens the string; its meaning is stated by RemoveAllWithoutOccurrence and RemoveAllLeading |
| Text.EqualsIgnoreCaseIffLoweredEqual | artemis-core/src/main/java/org/jnosql/artemis/reflection/DefaultClassRepresentations.java:74 | `equalsIgnoreCase` holds exactly when the lower-case forms are equal |
| Text.RemoveAllWithoutOccurrence | artemis-core/src/main/java/org/jnosql/artemis/document/DocumentCrudRepositoryProxy.java:69 | `replace(target, "")` leaves a string without an occurrence of the target unchanged |
| Text.RemoveAllLeading | artemis-core/src/main/java/org/jnosql/artemis/document/DocumentCrudRepositoryProxy.java:69 | a leading occurrence is removed and the scan resumes after it |
| ClassRepresentations.DefaultClassRepresentations.constructor | artemis-core/src/main/java/org/jnosql/artemis/reflection/DefaultClassRepresentations.java:33-44 | both maps start empty and `create` has not been called |
| ClassRepresentations.DefaultClassRepresentations.Init | artemis-core/src/main/java/org/jnosql/artemis/reflection/DefaultClassRepresentations.java:46-52 | both maps become exactly the extension's maps, whatever they held before |
| ClassRepresentations.DefaultClassRepresentations.Load | artemis-core/src/main/java/org/jnosql/artemis/reflection/DefaultClassRepresentations.java:54-57 | a new representation is registered under the class's Java name; the class cache is untouched |
| ClassRepresentations.DefaultClassRepresentations.Get | artemis-core/src/main/java/org/jnosql/artemis/reflection/DefaultClassRepresentations.java:59-68 | a cached class returns its entry and calls nothing; an uncached one is created once, cached, and returned; afterwards the class maps to the result |
| ClassRepresentations.DefaultClassRepresentations.FindByName | artemis-core/src/main/java/org/jnosql/artemis/reflection/DefaultClassRepresentations.java:70-76 | the result is a registered representation whose name equals the given one ignoring case; the exception with message "There is not entity found with the name: " + name is raised exactly when no representation matches |
| ClassRepresentations.GetTwice | artemis-core/src/main/java/org/jnosql/artemis/reflection/DefaultClassRepresentations.java:59-68 | two calls of `get` with one class return the same representation and call `create` at most once |
| DocumentStore.PutAll | artemis-core/src/main/java/org/jnosql/artemis/document/query/AbstractDocumentRepository.java:60-63 | storing a batch adds exactly the batch's ids to the keys |
| DocumentStore.PutAllKeyedById | artemis-core/src/main/java/org/jnosql/artemis/document/query/AbstractDocumentRepository.java:60-63 | storing a batch keeps every entity stored under its own id |
| DocumentStore.IdConditionMatchesKey | artemis-core/src/main/java/org/jnosql/artemis/document/query/AbstractDocumentRepository.java:96-102 | an equality condition on the id attribute matches a stored entity exactly when it is stored under that id |
| DocumentRepositories.Hits | artemis-core/src/main/java/org/jnosql/artemis/document/query/AbstractDocumentRepository.java:105-121 | the flatMap of `findById` over the ids: the entities stored under them, in order, missing ids skipped (stated by HitsAppend, HitsAreStored and HitsAllOrNothing) |
| DocumentRepositories.HitsAppend | artemis-core/src/main/java/org/jnosql/artemis/document/query/AbstractDocumentRepository.java:105-110 | the entities found for two id lists in a row are the entities found for each, concatenated |
| DocumentRepositories.HitsAreStored | artemis-core/src/main/java/org/jnosql/artemis/document/query/AbstractDocumentRepository.java:105-121 | the entities found for an id list are exactly those stored under one of its ids, and there are no more of them than ids |
| DocumentRepositories.HitsAllOrNothing | artemis-core/src/main/java/org/jnosql/artemis/document/query/AbstractDocumentRepository.java:105-121 | when every id is stored, one entity per id is found, in order; when none is, nothing is found |
| DocumentRepositories.FirstNull | artemis-core/src/main/java/org/jnosql/artemis/document/query/AbstractDocumentRepository.java:76-79 | the index of the first null id, the one at which iterating over the ids stops |
| DocumentRepositories.DeleteByIdRemovesKey | artemis-core/src/main/java/org/jnosql/artemis/document/query/AbstractDocumentRepository.java:66-73 | deleting by the id condition removes exactly the entry for that id |
| DocumentRepositories.EntityIds | artemis-core/src/main/java/org/jnosql/artemis/document/query/AbstractDocumentRepository.java:87-93 | the id value `delete` reads from each entity, in order, null for a null entity |
| DocumentRepositories.DocumentRepository.IdField | artemis-core/src/main/java/org/jnosql/artemis/document/query/AbstractDocumentRepository.java:112-114 | the id field when the entity has one, IdNotFoundException otherwise |
| DocumentRepositories.DocumentRepository.FindById | artemis-core/src/main/java/org/jnosql/artemis/document/query/AbstractDocumentRepository.java:95-103 | a null id fails with "id is required"; an entity without an id field fails with IdNotFoundException; otherwise the result is the entity stored under the id, if any |
| DocumentRepositories.DocumentRepository.ExistsById | artemis-core/src/main/java/org/jnosql/artemis/document/query/AbstractDocumentRepository.java:123-126 | true exactly when an entity is stored under the id; the errors are those of `findById` |
| DocumentRepositories.DocumentRepository.FindByIds | artemis-core/src/main/java/org/jnosql/artemis/document/query/AbstractDocumentRepository.java:105-121 | a null list fails with "ids is required"; a null id in the list fails with "id is required"; otherwise the result is the stored entities for the ids, in order, with missing ids skipped |
| DocumentRepositories.DocumentRepository.Save | artemis-core/src/main/java/org/jnosql/artemis/document/query/AbstractDocumentRepository.java:49-58 | a null entity fails with "Entity is required"; a null id fails with "id is required"; otherwise the entity is stored under its id, and the call is an update when the id was stored before and an insert otherwise; on failure the store is unchanged |
| DocumentRepositories.DocumentRepository.SaveAll | artemis-core/src/main/java/org/jnosql/artemis/document/query/AbstractDocumentRepository.java:60-63 | the whole batch goes to `insert`, with no existence check |
| DocumentRepositories.DocumentRepository.DeleteById | artemis-core/src/main/java/org/jnosql/artemis/document/query/AbstractDocumentRepository.java:66-73 | a null id fails with "is is required"; otherwise one delete query on the entity name, with condition id attribute = id, removes exactly that id's entry |
| DocumentRepositories.DocumentRepository.DeleteByIds | artemis-core/src/main/java/org/jnosql/artemis/document/query/AbstractDocumentRepository.java:75-79 | a null list fails with "ids is required"; otherwise the ids are deleted one by one, in order, up to the first null, which fails with "is is required"; the store loses exactly the ids before it |
| DocumentRepositories.DocumentRepository.DeleteAll | artemis-core/src/main/java/org/jnosql/artemis/document/query/AbstractDocumentRepository.java:81-85 | a null list fails with "entities is required"; otherwise the entities are deleted one by one, in order, up to the first null entity or null id value, which fails with "entity is required" or "id value is required"; the store loses exactly the ids before it, and one delete query is logged for each |
| DocumentRepositories.DocumentRepository.Delete | artemis-core/src/main/java/org/jnosql/artemis/document/query/AbstractDocumentRepository.java:87-93 | a null entity fails with "entity is required"; a null id value fails with "id value is required"; otherwise the call behaves as `deleteById` of the entity's id |
| CrudProxy.AttributeName | artemis-core/src/main/java/org/jnosql/artemis/document/DocumentCrudRepositoryProxy.java:69-70 | the name fails at `charAt(0)` exactly when nothing remains after removing "findBy"; otherwise it is the remainder with its first character lower-cased |
| CrudProxy.AttributeNameOfFindBy | artemis-core/src/main/java/org/jnosql/artemis/document/DocumentCrudRepositoryProxy.java:67-70 | `findBy` followed by a name without "findBy" in it queries that name with its first letter lower-cased |
| CrudProxy.AttributeNameOfBareFindBy | artemis-core/src/main/java/org/jnosql/artemis/document/DocumentCrudRepositoryProxy.java:69-70 | a method named just `findBy` fails with StringIndexOutOfBoundsException(0) |
| CrudProxy.AttributeNameOfFindByName | artemis-core/src/main/java/org/jnosql/artemis/document/DocumentCrudRepositoryProxy.java:69-70 | `findByName` queries attribute `name` |
| CrudProxy.KindOf | artemis-core/src/main/java/org/jnosql/artemis/document/DocumentCrudRepositoryProxy.java:60-84 | `save` and `update` are delegated before any prefix test; otherwise the `findBy` prefix wins over `deleteBy` |
| CrudProxy.DelegatedCall | artemis-core/src/main/java/org/jnosql/artemis/document/DocumentCrudRepositoryProxy.java:62-64 | a call is made if and only if CrudRepository declares the method, the number of arguments fits, an Iterable is passed where one is declared, and the method is not an `update` with a time to live; the call goes to the overload with the method's own name and parameters and carries the invoked arguments unchanged |
| CrudProxy.DocumentCrudRepository.Save | artemis-core/src/main/java/org/jnosql/artemis/document/DocumentCrudRepositoryProxy.java:96-99 | forwards to the repository's `save`, with the same entity |
| CrudProxy.DocumentCrudRepository.SaveWithTtl | artemis-core/src/main/java/org/jnosql/artemis/document/DocumentCrudRepositoryProxy.java:101-104 | forwards to the repository's `save(entity, ttl)` |
| CrudProxy.DocumentCrudRepository.SaveAll | artemis-core/src/main/java/org/jnosql/artemis/document/DocumentCrudRepositoryProxy.java:106-109 | forwards to the repository's `save(entities)` |
| CrudProxy.DocumentCrudRepository.SaveAllWithTtl | artemis-core/src/main/java/org/jnosql/artemis/document/DocumentCrudRepositoryProxy.java:111-114 | forwards to the repository's `save(entities, ttl)` |
| CrudProxy.DocumentCrudRepository.Update | artemis-core/src/main/java/org/jnosql/artemis/document/DocumentCrudRepositoryProxy.java:116-119 | forwards to the repository's `update` |
| CrudProxy.DocumentCrudRepository.UpdateAll | artemis-core/src/main/java/org/jnosql/artemis/document/DocumentCrudRepositoryProxy.java:121-124 | forwards to the repository's `update(entities)` |
| CrudProxy.DocumentCrudRepositoryProxy.constructor | artemis-core/src/main/java/org/jnosql/artemis/document/DocumentCrudRepositoryProxy.java:48-54 | the representation is the one the metadata registry's `get` returns for the entity class: the cached one, with no `create` call, or `create` of the class, with exactly one; the class is cached with it afterwards and the name map is unchanged |
| CrudProxy.DocumentCrudRepositoryProxy.Invoke | artemis-core/src/main/java/org/jnosql/artemis/document/DocumentCrudRepositoryProxy.java:57-85 | `save`/`update` make exactly the delegated call, store the entity under its id or the batch one after the other, and return the argument, or fail with IllegalArgumentException and change nothing; `findBy…` fails as the name derivation does, or with a NullPointerException when there are no arguments; if the return type is the entity class it returns a stored entity matching attribute = first argument, or null exactly when none matches; with any other return type, and for `deleteBy…` and every other name, it returns null; only `save`/`update` change the store |
| CrudProxy.DocumentCrudRepositoryProxy.InvokeCrud | artemis-core/src/main/java/org/jnosql/artemis/document/DocumentCrudRepositoryProxy.java:62-64 | `method.invoke(crudRepository, args)`: the store logs exactly the delegated call, its entities are the old ones with the argument stored under its id or the batch stored one after the other, and the result is the argument; or IllegalArgumentException with no change |
| DeleteQueryMapper.DigitValue | artemis-column/src/test/java/org/jnosql/artemis/column/query/DefaultColumnMapperDeleteBuilderTest.java:133-140 | a digit's value is below ten and prints back as the same digit |
| DeleteQueryMapper.Digits | artemis-column/src/test/java/org/jnosql/artemis/column/query/DefaultColumnMapperDeleteBuilderTest.java:142-149 | a numeral is non-empty and made of digits only |
| DeleteQueryMapper.ParseDecimal | artemis-column/src/test/java/org/jnosql/artemis/column/query/DefaultColumnMapperDeleteBuilderTest.java:133-140 | only a non-empty string parses |
| DeleteQueryMapper.DigitsValueOfDigits | artemis-column/src/test/java/org/jnosql/artemis/column/query/DefaultColumnMapperDeleteBuilderTest.java:133-140 | the value of a natural number's numeral is that number |
| DeleteQueryMapper.ParseDigits | artemis-column/src/test/java/org/jnosql/artemis/column/query/DefaultColumnMapperDeleteBuilderTest.java:133-140 | a non-empty string of digits parses to the number it spells |
| DeleteQueryMapper.ParseDecimalOfDecimal | artemis-column/src/test/java/org/jnosql/artemis/column/query/DefaultColumnMapperDeleteBuilderTest.java:133-140 | parsing the decimal form of any integer gives it back |
| DeleteQueryMapper.ParseDecimalRejectsNonNumeral | artemis-column/src/test/java/org/jnosql/artemis/column/query/DefaultColumnMapperDeleteBuilderTest.java:133-140 | a string without digits is not a number |
| DeleteQueryMapper.FindField | artemis-column/src/test/java/org/jnosql/artemis/column/query/DefaultColumnMapperDeleteBuilderTest.java:52-100 | the field found has the Java name looked for and belongs to the entity; none is found exactly when no field has that name |
| DeleteQueryMapper.FindFieldFrom | artemis-column/src/test/java/org/jnosql/artemis/column/query/DefaultColumnMapperDeleteBuilderTest.java:52-100 | the field found from a position on has the Java name looked for; none is found exactly when no field from there on has it |
| DeleteQueryMapper.DotIndex | artemis-column/src/test/java/org/jnosql/artemis/column/query/DefaultColumnMapperDeleteBuilderTest.java:151-169 | the index of the first dot, or none when the path has no dot |
| DeleteQueryMapper.DotIndexFrom | artemis-column/src/test/java/org/jnosql/artemis/column/query/DefaultColumnMapperDeleteBuilderTest.java:151-169 | the index of the first dot at or after a position, or none when no dot follows it |
| DeleteQueryMapper.DotIndexOfJoin | artemis-column/src/test/java/org/jnosql/artemis/column/query/DefaultColumnMapperDeleteBuilderTest.java:151-169 | in `head.rest` with no dot in `head`, the first dot follows `head` |
| DeleteQueryMapper.Resolve | artemis-column/src/test/java/org/jnosql/artemis/column/query/DefaultColumnMapperDeleteBuilderTest.java:151-169 | resolution fails only with UnknownField |
| DeleteQueryMapper.ResolvePlainName | artemis-column/src/test/java/org/jnosql/artemis/column/query/DefaultColumnMapperDeleteBuilderTest.java:66-70 | a name without a dot resolves exactly when some field has that Java name, and then to that field's mapped attribute (the id field's `_id`) |
| DeleteQueryMapper.ResolveDottedPath | artemis-column/src/test/java/org/jnosql/artemis/column/query/DefaultColumnMapperDeleteBuilderTest.java:151-169 | through an embedded field the attribute is `field.inner`; through a sub-entity it is the inner attribute alone; an inner failure is passed on |
| DeleteQueryMapper.Coerce | artemis-column/src/test/java/org/jnosql/artemis/column/query/DefaultColumnMapperDeleteBuilderTest.java:66-100 | null passes through every type; coercion fails only for an unconvertible operand or a string that is not a number |
| DeleteQueryMapper.CoerceToLong | artemis-column/src/test/java/org/jnosql/artemis/column/query/DefaultColumnMapperDeleteBuilderTest.java:66-100 | a long field takes an int, a long and a numeral string as the same long |
| DeleteQueryMapper.Operand | artemis-column/src/test/java/org/jnosql/artemis/column/query/DefaultColumnMapperDeleteBuilderTest.java:142-149 | a field with a converter takes the converter's database value; any other field takes the coerced operand (the builder's definition; checked by SingleCondition, JoinInCallOrder, UnknownNameFails, BadOperandFails and the test lemmas) |
| DeleteQueryMapper.DeleteFrom | artemis-document/src/main/java/org/jnosql/artemis/document/query/DefaultDocumentQueryMapperBuilder.java:44-48 | a fresh builder on the entity's representation (the builder's definition; checked by SingleCondition, JoinInCallOrder, UnknownNameFails, BadOperandFails and the test lemmas) |
| DeleteQueryMapper.Name | artemis-column/src/test/java/org/jnosql/artemis/column/query/DefaultColumnMapperDeleteBuilderTest.java:52-169 | a name awaits its operator exactly when it resolves, with the resolved attribute and field and no negation (the builder's definition; checked by SingleCondition, JoinInCallOrder, UnknownNameFails, BadOperandFails and the test lemmas) |
| DeleteQueryMapper.Where | artemis-column/src/test/java/org/jnosql/artemis/column/query/DefaultColumnMapperDeleteBuilderTest.java:52-63 | starts the first condition; a failed chain stays failed (the builder's definition; checked by SingleCondition, JoinInCallOrder, UnknownNameFails, BadOperandFails and the test lemmas) |
| DeleteQueryMapper.And | artemis-column/src/test/java/org/jnosql/artemis/column/query/DefaultColumnMapperDeleteBuilderTest.java:110-119 | starts a condition joined by AND to the one built so far (the builder's definition; checked by SingleCondition, JoinInCallOrder, UnknownNameFails, BadOperandFails and the test lemmas) |
| DeleteQueryMapper.Or | artemis-column/src/test/java/org/jnosql/artemis/column/query/DefaultColumnMapperDeleteBuilderTest.java:121-130 | starts a condition joined by OR to the one built so far (the builder's definition; checked by SingleCondition, JoinInCallOrder, UnknownNameFails, BadOperandFails and the test lemmas) |
| DeleteQueryMapper.Not | artemis-column/src/test/java/org/jnosql/artemis/column/query/DefaultColumnMapperDeleteBuilderTest.java:102-107 | marks the pending condition negated and changes nothing else (the builder's definition; checked by SingleCondition, JoinInCallOrder, UnknownNameFails, BadOperandFails and the test lemmas) |
| DeleteQueryMapper.Complete | artemis-column/src/test/java/org/jnosql/artemis/column/query/DefaultColumnMapperDeleteBuilderTest.java:102-130 | the first condition is the leaf, negated if `not()` was called; a joined one is AND or OR of the earlier condition on the left and that leaf on the right |
| DeleteQueryMapper.Apply | artemis-column/src/test/java/org/jnosql/artemis/column/query/DefaultColumnMapperDeleteBuilderTest.java:52-91 | an operator adds the leaf on the resolved attribute with the mapped operand, or fails with the operand's error (the builder's definition; checked by SingleCondition, JoinInCallOrder, UnknownNameFails, BadOperandFails and the test lemmas) |
| DeleteQueryMapper.Between | artemis-column/src/test/java/org/jnosql/artemis/column/query/DefaultColumnMapperDeleteBuilderTest.java:93-100 | both bounds are mapped, low first; the first failure ends the chain (the builder's definition; checked by SingleCondition, JoinInCallOrder, UnknownNameFails, BadOperandFails and the test lemmas) |
| DeleteQueryMapper.Build | artemis-column/src/test/java/org/jnosql/artemis/column/query/DefaultColumnMapperDeleteBuilderTest.java:42-48 | a delete on the entity's name with the condition built, or none; a failed chain raises its error (the builder's definition; checked by SingleCondition, JoinInCallOrder, UnknownNameFails, BadOperandFails and the test lemmas) |
| DeleteQueryMapper.SingleCondition | artemis-column/src/test/java/org/jnosql/artemis/column/query/DefaultColumnMapperDeleteBuilderTest.java:52-107 | for every entity, one condition is the leaf on the mapped attribute with the mapped operand, wrapped in NOT exactly when `not()` was called |
| DeleteQueryMapper.JoinInCallOrder | artemis-column/src/test/java/org/jnosql/artemis/column/query/DefaultColumnMapperDeleteBuilderTest.java:110-130 | for every chain, `and`/`or` keep the earlier condition on the left and put the new translated leaf, wrapped in NOT exactly when `not()` follows the name, on the right |
| DeleteQueryMapper.UnknownNameFails | artemis-column/src/test/java/org/jnosql/artemis/column/query/DefaultColumnMapperDeleteBuilderTest.java:52-63 | an unknown field name makes `build` fail with UnknownField |
| DeleteQueryMapper.BadOperandFails | artemis-column/src/test/java/org/jnosql/artemis/column/query/DefaultColumnMapperDeleteBuilderTest.java:133-140 | an operand the field cannot take makes `build` fail with that error |
| DeleteQueryMapperTests.ShouldReturnDeleteFrom | artemis-column/src/test/java/org/jnosql/artemis/column/query/DefaultColumnMapperDeleteBuilderTest.java:42-48 | `deleteFrom(Person).build()` is a delete on "Person" with no condition |
| DeleteQueryMapperTests.ShouldSelectWhereNameEq | artemis-column/src/test/java/org/jnosql/artemis/column/query/DefaultColumnMapperDeleteBuilderTest.java:51-56 | `where("name").eq("Ada")` is `name = "Ada"` |
| DeleteQueryMapperTests.ShouldSelectWhereNameLike | artemis-column/src/test/java/org/jnosql/artemis/column/query/DefaultColumnMapperDeleteBuilderTest.java:58-63 | `where("name").like("Ada")` is `name like "Ada"` |
| DeleteQueryMapperTests.ShouldSelectWhereNameGt | artemis-column/src/test/java/org/jnosql/artemis/column/query/DefaultColumnMapperDeleteBuilderTest.java:65-70 | `where("id").gt(10)` is `_id > 10L` |
| DeleteQueryMapperTests.ShouldSelectWhereNameGte | artemis-column/src/test/java/org/jnosql/artemis/column/query/DefaultColumnMapperDeleteBuilderTest.java:72-77 | `where("id").gte(10)` is `_id >= 10L` |
| DeleteQueryMapperTests.ShouldSelectWhereNameLt | artemis-column/src/test/java/org/jnosql/artemis/column/query/DefaultColumnMapperDeleteBuilderTest.java:79-84 | `where("id").lt(10)` is `_id < 10L` |
| DeleteQueryMapperTests.ShouldSelectWhereNameLte | artemis-column/src/test/java/org/jnosql/artemis/column/query/DefaultColumnMapperDeleteBuilderTest.java:86-91 | `where("id").lte(10)` is `_id <= 10L` |
| DeleteQueryMapperTests.ShouldSelectWhereNameBetween | artemis-column/src/test/java/org/jnosql/artemis/column/query/DefaultColumnMapperDeleteBuilderTest.java:93-100 | `where("id").between(10, 20)` is `_id between 10L and 20L` |
| DeleteQueryMapperTests.ShouldSelectWhereNameNot | artemis-column/src/test/java/org/jnosql/artemis/column/query/DefaultColumnMapperDeleteBuilderTest.java:102-107 | `where("name").not().like("Ada")` is `not (name like "Ada")` |
| DeleteQueryMapperTests.ShouldSelectWhereNameAnd | artemis-column/src/test/java/org/jnosql/artemis/column/query/DefaultColumnMapperDeleteBuilderTest.java:110-119 | `where("age").between(10, 20).and("name").eq("Ada")` is `age between 10 and 20 and name = "Ada"`; an int field keeps int operands |
| DeleteQueryMapperTests.ShouldSelectWhereNameOr | artemis-column/src/test/java/org/jnosql/artemis/column/query/DefaultColumnMapperDeleteBuilderTest.java:121-130 | `where("id").between(10, 20).or("name").eq("Ada")` is `_id between 10L and 20L or name = "Ada"` |
| DeleteQueryMapperTests.ShouldConvertField | artemis-column/src/test/java/org/jnosql/artemis/column/query/DefaultColumnMapperDeleteBuilderTest.java:132-140 | `where("id").eq("20")` is `_id = 20L` |
| DeleteQueryMapperTests.ShouldUseAttributeConverter | artemis-column/src/test/java/org/jnosql/artemis/column/query/DefaultColumnMapperDeleteBuilderTest.java:142-149 | `where("salary").eq(Money("USD", 10))` on Worker is `money = "USD 10"` |
| DeleteQueryMapperTests.TenDollarsInDatabaseForm | artemis-column/src/test/java/org/jnosql/artemis/column/query/DefaultColumnMapperDeleteBuilderTest.java:142-149 | MoneyConverter writes `Money("USD", 10)` as `"USD 10"` |
| DeleteQueryMapperTests.ShouldQueryByEmbeddable | artemis-column/src/test/java/org/jnosql/artemis/column/query/DefaultColumnMapperDeleteBuilderTest.java:151-159 | `where("job.city")` on Worker stays `job.city` |
| DeleteQueryMapperTests.ZipCodePathResolves | artemis-column/src/test/java/org/jnosql/artemis/column/query/DefaultColumnMapperDeleteBuilderTest.java:161-169 | `zipcode.zip` on Address resolves to the sub-entity's own attribute `zip` |
| DeleteQueryMapperTests.ShouldQueryBySubEntity | artemis-column/src/test/java/org/jnosql/artemis/column/query/DefaultColumnMapperDeleteBuilderTest.java:161-169 | `where("zipcode.zip").eq("01312321")` on Address is `zip = "01312321"` |
| DeleteQueryMapperTests.UnknownHeadFails | artemis-column/src/test/java/org/jnosql/artemis/column/query/DefaultColumnMapperDeleteBuilderTest.java:151-169 | a dotted path whose head is no field fails, naming the head |

## Left out

- Reflection, CDI injection and `@PostConstruct` are not modelled. In their place the model takes:
  - `ClassConverter.create` and the extension's maps as parameters;
  - `Reflections.newInstance` as an allocation serial;
  - the entity's id value as an attribute lookup;
  - the proxy's entity class, found from the interface's generic type argument, as a constructor parameter.
- Concurrency. The registries use `ConcurrentHashMap` and tolerate racing callers. The model is sequential.
- Every `toString` method is left out: it is diagnostic only.
- Null class arguments are not modelled for some members:
  - DefaultClassRepresentations.Get, DefaultClassRepresentations.FindByName and DefaultClassRepresentations.Load do not model a null class or name argument, which the source does not check.
  - DeleteQueryMapper.DeleteFrom does not model the null entity class, which fails with "entity is required".
- Text.ToUpper and Text.ToLower cover the ASCII letters only. Java's full Unicode case mapping is not modelled.
- Integer widths are not modelled. `Int` and `Long` hold unbounded integers.
  - DeleteQueryMapper.ParseDecimal accepts numerals beyond the 64-bit range, where `Long.parseLong` fails.
  - DeleteQueryMapper.Coerce does not narrow a long to an int or coerce to types other than int and long. A string field is given string operands in every test.
- DocumentStore.DocumentTemplate ignores the collection name of a query. One store serves one entity.
- DocumentStore.DocumentTemplate.SingleResult returns any matching entity. The backend's failure on several matches is not modelled; an id condition matches at most one entity.
- DocumentStore.DocumentTemplate.SaveWithTtl stores like `save`. Expiry is not modelled, and the time to live is any value.
- The store accepts a null entity in `save`, `insert` and `update`. The backend's own null checks are not part of this model.
- CrudProxy.DocumentCrudRepositoryProxy.Invoke does not model the run-time type check that `Method.invoke` makes on a Duration argument.
- The implementations of several interfaces the core calls are not shown. Each is modelled by what the core relies on:
  - `DocumentRepository`, the target of the CrudRepository's forwarding, by DocumentStore.DocumentTemplate;
  - `FieldValue.of` by FieldValues.New, the DefaultFieldValue constructor;
  - the `FieldType` enum by Mapping.FieldType;
  - the column entity converter's `toColumn(value).getColumns()` by a function parameter of ColumnFieldValues.ColumnOf.
- CrudProxy.DelegatedCall rejects a null argument for an Iterable parameter with IllegalArgumentException. `Method.invoke` instead passes the null on to the repository's batch `save` or `update`, whose null handling is not part of this model.
- The mapper's implementation classes are not part of this model either. Its contract is modelled from its unit test and the column and document mapper builders.
  - DeleteQueryMapper.Resolve fails with UnknownField on a dotted path whose head is neither embedded nor a sub-entity. That case is not pinned down by the test.
  - The `in` operator is not modelled, because the test does not exercise it.
