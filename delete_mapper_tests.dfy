/** The delete-query mapper's contract on the model entities: each lemma is
    one assertion that a mapper chain builds the same query as the backend's
    builder chain on the mapped names. */
module DeleteQueryMapperTests {
  import opened Values
  import opened Mapping
  import opened Conditions
  import opened DeleteQueryMapper

  // ---- the model entities ----

  function Plain(attribute: string, javaName: string, t: JavaType): FieldMapping
  {
    FieldMapping(attribute, NativeField(javaName, t), Default, None, false, [])
  }

  /** Person: a long id stored as `_id`, a name and an int age. */
  function PersonId(): FieldMapping { Plain("_id", "id", LongType) }

  function Person(): ClassRepresentation
  {
    ClassRepresentation("Person", JavaClass("org.jnosql.artemis.model.Person"),
      [PersonId(), Plain("name", "name", StringType), Plain("age", "age", IntType)],
      Some(PersonId()))
  }

  const MoneyConverter := ConverterClass("org.jnosql.artemis.model.MoneyConverter")

  /** Worker: a name, an embedded Job with a city, and a Money salary stored
      as `money` through MoneyConverter. */
  function Worker(): ClassRepresentation
  {
    ClassRepresentation("Worker", JavaClass("org.jnosql.artemis.model.Worker"),
      [Plain("name", "name", StringType),
       FieldMapping("job", NativeField("job", OtherType("org.jnosql.artemis.model.Job")), Embedded, None, false,
                    [Plain("city", "city", StringType), Plain("description", "description", StringType)]),
       FieldMapping("money", NativeField("salary", OtherType("org.jnosql.artemis.model.Money")), Default,
                    Some(MoneyConverter), false, [])],
      None)
  }

  /** Address: a street, a city and a ZipCode sub-entity holding a zip. */
  function Address(): ClassRepresentation
  {
    ClassRepresentation("Address", JavaClass("org.jnosql.artemis.model.Address"),
      [Plain("street", "street", StringType), Plain("city", "city", StringType),
       FieldMapping("zipcode", NativeField("zipcode", OtherType("org.jnosql.artemis.model.ZipCode")), SubEntity,
                    None, false, [Plain("zip", "zip", StringType), Plain("plusFour", "plusFour", StringType)])],
      None)
  }

  /** `new Money(currency, value)`. */
  function Money(currency: string, value: int): Value
  {
    Ref(Instance("org.jnosql.artemis.model.Money", map["currency" := Str(currency), "value" := Int(value)]))
  }

  /** MoneyConverter.convertToDatabaseColumn: Money's `toString`, the
      currency, a space and the amount. */
  function ToDatabase(c: ConverterClass, v: Value): Value
  {
    if c == MoneyConverter && v.Ref? && "currency" in v.obj.attributes && "value" in v.obj.attributes
       && v.obj.attributes["currency"].Str? && v.obj.attributes["value"].Int?
    then Str(v.obj.attributes["currency"].s + " " + Decimal(v.obj.attributes["value"].i))
    else v
  }

  function From(entity: ClassRepresentation): Builder
  {
    DeleteFrom(entity, ToDatabase)
  }

  // ---- one lemma per assertion ----

  lemma ShouldReturnDeleteFrom()
    ensures Build(From(Person())) == Ok(DeleteQuery("Person", None))
  {
  }

  lemma ShouldSelectWhereNameEq()
    ensures Build(Apply(Where(From(Person()), "name"), EqOp, Str("Ada")))
         == Ok(DeleteQuery("Person", Some(Condition.Eq("name", Str("Ada")))))
  {
  }

  lemma ShouldSelectWhereNameLike()
    ensures Build(Apply(Where(From(Person()), "name"), LikeOp, Str("Ada")))
         == Ok(DeleteQuery("Person", Some(Like("name", Str("Ada")))))
  {
  }

  lemma ShouldSelectWhereNameGt()
    ensures Build(Apply(Where(From(Person()), "id"), GtOp, Int(10)))
         == Ok(DeleteQuery("Person", Some(Gt("_id", Long(10)))))
  {
  }

  lemma ShouldSelectWhereNameGte()
    ensures Build(Apply(Where(From(Person()), "id"), GteOp, Int(10)))
         == Ok(DeleteQuery("Person", Some(Gte("_id", Long(10)))))
  {
  }

  lemma ShouldSelectWhereNameLt()
    ensures Build(Apply(Where(From(Person()), "id"), LtOp, Int(10)))
         == Ok(DeleteQuery("Person", Some(Lt("_id", Long(10)))))
  {
  }

  lemma ShouldSelectWhereNameLte()
    ensures Build(Apply(Where(From(Person()), "id"), LteOp, Int(10)))
         == Ok(DeleteQuery("Person", Some(Lte("_id", Long(10)))))
  {
  }

  lemma ShouldSelectWhereNameBetween()
    ensures Build(DeleteQueryMapper.Between(Where(From(Person()), "id"), Int(10), Int(20)))
         == Ok(DeleteQuery("Person", Some(Condition.Between("_id", Long(10), Long(20)))))
  {
  }

  lemma ShouldSelectWhereNameNot()
    ensures Build(Apply(DeleteQueryMapper.Not(Where(From(Person()), "name")), LikeOp, Str("Ada")))
         == Ok(DeleteQuery("Person", Some(Condition.Not(Like("name", Str("Ada"))))))
  {
  }

  /** The first stage of the AND chain: `where("age").between(10, 20)`. */
  lemma AgeBetween()
    ensures DeleteQueryMapper.Between(Where(From(Person()), "age"), Int(10), Int(20))
         == Builder(Person(), ToDatabase, Conditioned(Condition.Between("age", Int(10), Int(20))))
  {
    var age := Where(From(Person()), "age");
    assert age == Builder(Person(), ToDatabase, Named(Pending("age", Plain("age", "age", IntType), false, First)));
  }

  lemma ShouldSelectWhereNameAnd()
    ensures Build(Apply(DeleteQueryMapper.And(DeleteQueryMapper.Between(Where(From(Person()), "age"), Int(10), Int(20)), "name"), EqOp, Str("Ada")))
         == Ok(DeleteQuery("Person", Some(Condition.And(Condition.Between("age", Int(10), Int(20)),
                                                        Condition.Eq("name", Str("Ada"))))))
  {
    AgeBetween();
    var between := Builder(Person(), ToDatabase, Conditioned(Condition.Between("age", Int(10), Int(20))));
    var name := DeleteQueryMapper.And(between, "name");
    assert name == Builder(Person(), ToDatabase, Named(Pending("name", Plain("name", "name", StringType), false,
                                                              AndWith(Condition.Between("age", Int(10), Int(20))))));
  }

  lemma ShouldSelectWhereNameOr()
    ensures Build(Apply(DeleteQueryMapper.Or(DeleteQueryMapper.Between(Where(From(Person()), "id"), Int(10), Int(20)), "name"), EqOp, Str("Ada")))
         == Ok(DeleteQuery("Person", Some(Condition.Or(Condition.Between("_id", Long(10), Long(20)),
                                                       Condition.Eq("name", Str("Ada"))))))
  {
    var id := Where(From(Person()), "id");
    assert id.stage == Named(Pending("_id", PersonId(), false, First));
    var between := DeleteQueryMapper.Between(id, Int(10), Int(20));
    assert between.stage == Conditioned(Condition.Between("_id", Long(10), Long(20)));
    var name := DeleteQueryMapper.Or(between, "name");
    assert name.stage == Named(Pending("name", Plain("name", "name", StringType), false,
                                       OrWith(Condition.Between("_id", Long(10), Long(20)))));
  }

  lemma ShouldConvertField()
    ensures Build(Apply(Where(From(Person()), "id"), EqOp, Str("20")))
         == Ok(DeleteQuery("Person", Some(Condition.Eq("_id", Long(20)))))
  {
    assert "20" == Decimal(20);
    CoerceToLong(20);
  }

  /** MoneyConverter writes ten dollars as `USD 10`. */
  lemma TenDollarsInDatabaseForm()
    ensures ToDatabase(MoneyConverter, Money("USD", 10)) == Str("USD 10")
  {
    assert Digits(1) == "1" && DigitChar(0) == '0';
    assert Decimal(10) == "10";
    assert ToDatabase(MoneyConverter, Money("USD", 10)) == Str("USD" + " " + "10");
    assert "USD" + " " + "10" == "USD 10";
  }

  lemma ShouldUseAttributeConverter()
    ensures Build(Apply(Where(From(Worker()), "salary"), EqOp, Money("USD", 10)))
         == Ok(DeleteQuery("Worker", Some(Condition.Eq("money", Str("USD 10")))))
  {
    var salary := Worker().fields[2];
    assert Resolve(Worker().fields, "salary") == Ok(Resolved("money", salary));
    TenDollarsInDatabaseForm();
    assert Operand(salary, Money("USD", 10), ToDatabase) == Ok(Str("USD 10"));
  }

  /** `job.city` on Worker keeps the embedded field's attribute as prefix. */
  lemma JobCityPathResolves()
    ensures Resolve(Worker().fields, "job.city") == Ok(Resolved("job.city", Plain("city", "city", StringType)))
  {
    var job := Worker().fields[1];
    assert FindField(Worker().fields, "job") == Some(job);
    assert Resolve(job.nested, "city") == Ok(Resolved("city", job.nested[0]));
    ResolveDottedPath(Worker().fields, "job", "city", job);
    assert "job" + "." + "city" == "job.city";
  }

  lemma ShouldQueryByEmbeddable()
    ensures Build(Apply(Where(From(Worker()), "job.city"), EqOp, Str("Salvador")))
         == Ok(DeleteQuery("Worker", Some(Condition.Eq("job.city", Str("Salvador")))))
  {
    JobCityPathResolves();
    var b := From(Worker());
    var city := Name(b, "job.city", First);
    assert city.stage == Named(Pending("job.city", Plain("city", "city", StringType), false, First));
    assert Where(b, "job.city") == city;
    assert Coerce(StringType, Str("Salvador")) == Ok(Str("Salvador"));
    assert Operand(Plain("city", "city", StringType), Str("Salvador"), ToDatabase) == Ok(Str("Salvador"));
    var eq := Apply(city, EqOp, Str("Salvador"));
    assert eq.stage == Conditioned(Condition.Eq("job.city", Str("Salvador")));
    assert Build(eq) == Ok(DeleteQuery("Worker", Some(Condition.Eq("job.city", Str("Salvador")))));
  }

  /** `zipcode.zip` on Address names the sub-entity's own attribute. */
  lemma ZipCodePathResolves()
    ensures Resolve(Address().fields, "zipcode.zip") == Ok(Resolved("zip", Plain("zip", "zip", StringType)))
  {
    var zipcode := Address().fields[2];
    assert FindField(Address().fields, "zipcode") == Some(zipcode);
    assert Resolve(zipcode.nested, "zip") == Ok(Resolved("zip", zipcode.nested[0]));
    ResolveDottedPath(Address().fields, "zipcode", "zip", zipcode);
    assert "zipcode" + "." + "zip" == "zipcode.zip";
  }

  lemma ShouldQueryBySubEntity()
    ensures Build(Apply(Where(From(Address()), "zipcode.zip"), EqOp, Str("01312321")))
         == Ok(DeleteQuery("Address", Some(Condition.Eq("zip", Str("01312321")))))
  {
    ZipCodePathResolves();
    var b := From(Address());
    var zip := Name(b, "zipcode.zip", First);
    assert zip.stage == Named(Pending("zip", Plain("zip", "zip", StringType), false, First));
    assert Where(b, "zipcode.zip") == zip;
    assert Coerce(StringType, Str("01312321")) == Ok(Str("01312321"));
    assert Operand(Plain("zip", "zip", StringType), Str("01312321"), ToDatabase) == Ok(Str("01312321"));
    var eq := Apply(zip, EqOp, Str("01312321"));
    assert eq.stage == Conditioned(Condition.Eq("zip", Str("01312321")));
    assert Build(eq) == Ok(DeleteQuery("Address", Some(Condition.Eq("zip", Str("01312321")))));
  }

  /** A path whose head is no field fails, naming that head. */
  lemma UnknownHeadFails()
    ensures Build(Apply(Where(From(Worker()), "boss.city"), EqOp, Str("Salvador")))
         == Err(UnknownField("boss"))
  {
    assert "boss.city" == "boss" + "." + "city";
    DotIndexOfJoin("boss", "city");
    assert "boss.city"[..4] == "boss";
  }
}
