/** ColumnFieldValue: a FieldValue that can render itself as a named column,
    applying the field's converter where it declares one. */
module ColumnFieldValues {
  import opened Values
  import opened Mapping
  import FieldValues
  import opened Converters

  /** A column: a name and either a plain value or, for an embedded object,
      the columns of that object. */
  datatype Column = Column(name: string, value: ColumnValue)
  datatype ColumnValue = Single(v: Value) | Nested(columns: seq<Column>)

  datatype ColumnFieldValue = ColumnFieldValue(fieldValue: FieldValues.FieldValue)

  /** `of(value, field)`: wraps `FieldValue.of(value, field)`, so a null field fails. */
  function Of(value: Value, field: Option<FieldMapping>): (r: Result<ColumnFieldValue>)
    ensures r.Err? <==> field.None?
    ensures r.Err? ==> r.error == NullPointer("field is required")
    ensures r.Ok? ==> r.value.fieldValue == FieldValues.New(value, field).value
  {
    match FieldValues.New(value, field)
    case Ok(fv) => Ok(ColumnFieldValue(fv))
    case Err(e) => Err(e)
  }

  function GetValue(cfv: ColumnFieldValue): Value
  {
    FieldValues.GetValue(cfv.fieldValue)
  }

  function GetField(cfv: ColumnFieldValue): FieldMapping
  {
    FieldValues.GetField(cfv.fieldValue)
  }

  function IsNotEmpty(cfv: ColumnFieldValue): bool
  {
    FieldValues.IsNotEmpty(cfv.fieldValue)
  }

  /** The getters of a wrapper built by `of` answer what the wrapped
      FieldValue answers: the value and field it was given, and non-emptiness
      exactly for a non-null value. */
  lemma OfDelegates(value: Value, field: FieldMapping)
    ensures Of(value, Some(field)).Ok?
    ensures GetValue(Of(value, Some(field)).value) == value
    ensures GetField(Of(value, Some(field)).value) == field
    ensures IsNotEmpty(Of(value, Some(field)).value) <==> value != Null
  {
    FieldValues.NewThenGet(value, field);
  }

  /** Java references that the guards of `toColumn` compare: a FieldType enum
      constant, or a java.lang.reflect.Field. */
  datatype JavaRef = EnumConstant(constant: FieldType) | ReflectField(field: NativeField)

  /** `a.equals(b)` where `a` is an enum constant: Enum.equals is reference
      identity, and distinct objects are distinct references. */
  function JavaEquals(a: JavaRef, b: JavaRef): bool
  {
    a == b
  }

  /** `getNativeField()`: the reflect Field of the mapped field. */
  function GetNativeField(cfv: ColumnFieldValue): JavaRef
  {
    ReflectField(GetField(cfv).field)
  }

  /** `isEmbeddableElement()`: the collection's element class is @Embeddable. */
  predicate IsEmbeddableElement(cfv: ColumnFieldValue)
  {
    GetField(cfv).embeddableElement
  }

  /** `toColumn(converter, converters)` as a value. `entityColumns` is the
      entity converter's `toColumn(value).getColumns()`, `toDatabase(c, v)` is
      `convertToDatabaseColumn(v)` of an instance of converter class `c`. */
  function ColumnOf(cfv: ColumnFieldValue, entityColumns: Value -> seq<Column>,
                    toDatabase: (ConverterClass, Value) -> Value): Column
  {
    var f := GetField(cfv);
    if JavaEquals(EnumConstant(Embedded), GetNativeField(cfv)) then
      Column(f.name, Nested(entityColumns(GetValue(cfv))))
    else
      // `else if (COLLECTION.equals(...) && isEmbeddableElement()) { }` has an
      // empty body: whether or not it is taken, control reaches the rules below.
      if f.converter.Some? then
        Column(f.name, Single(toDatabase(f.converter.value, GetValue(cfv))))
      else
        Column(f.name, Single(GetValue(cfv)))
  }

  /** Whatever rule applies, the column is named after the field. */
  lemma ColumnNamedAfterField(cfv: ColumnFieldValue, entityColumns: Value -> seq<Column>,
                              toDatabase: (ConverterClass, Value) -> Value)
    ensures ColumnOf(cfv, entityColumns, toDatabase).name == GetField(cfv).name
  {
  }

  /** A field that declares a converter is stored as its converted value. */
  lemma ConverterApplied(cfv: ColumnFieldValue, entityColumns: Value -> seq<Column>,
                         toDatabase: (ConverterClass, Value) -> Value, c: ConverterClass)
    requires GetField(cfv).converter == Some(c)
    ensures ColumnOf(cfv, entityColumns, toDatabase) ==
            Column(GetField(cfv).name, Single(toDatabase(c, GetValue(cfv))))
  {
  }

  /** A field without a converter is stored as its raw value, unchanged. */
  lemma RawValueWithoutConverter(cfv: ColumnFieldValue, entityColumns: Value -> seq<Column>,
                                 toDatabase: (ConverterClass, Value) -> Value)
    requires GetField(cfv).converter.None?
    ensures ColumnOf(cfv, entityColumns, toDatabase) == Column(GetField(cfv).name, Single(GetValue(cfv)))
  {
  }

  /** Neither guard can hold: an enum constant is never equal to a Field object. */
  lemma GuardsNeverHold(cfv: ColumnFieldValue)
    ensures !JavaEquals(EnumConstant(Embedded), GetNativeField(cfv))
    ensures !(JavaEquals(EnumConstant(Collection), GetNativeField(cfv)) && IsEmbeddableElement(cfv))
  {
  }

  /** The consequence: the field's kind has no effect. An embedded field, or a
      collection of embeddables, is rendered by the converter and raw rules
      like any other field, and no column is ever nested. */
  lemma KindHasNoEffect(cfv: ColumnFieldValue, kind: FieldType, entityColumns: Value -> seq<Column>,
                        toDatabase: (ConverterClass, Value) -> Value)
    ensures var other := ColumnFieldValue(cfv.fieldValue.(field := GetField(cfv).(kind := kind)));
            ColumnOf(other, entityColumns, toDatabase) == ColumnOf(cfv, entityColumns, toDatabase)
    ensures ColumnOf(cfv, entityColumns, toDatabase).value.Single?
  {
  }

  /** `toColumn(converter, converters)`: renders the column, obtaining the
      converter instance from the registry, whose state changes exactly as
      its `get` does. */
  method ToColumn(cfv: ColumnFieldValue, entityColumns: Value -> seq<Column>,
                  converters: DefaultConverters, toDatabase: (ConverterClass, Value) -> Value)
    returns (column: Column)
    requires converters.Valid()
    modifies converters
    ensures converters.Valid()
    ensures column == ColumnOf(cfv, entityColumns, toDatabase)
    ensures converters.State() ==
      if GetField(cfv).converter.Some? then Lookup(old(converters.State()), GetField(cfv).converter.value).1
      else old(converters.State())
  {
    var f := GetField(cfv);
    if JavaEquals(EnumConstant(Embedded), GetNativeField(cfv)) {
      return Column(f.name, Nested(entityColumns(GetValue(cfv))));
    } else if JavaEquals(EnumConstant(Collection), GetNativeField(cfv)) && IsEmbeddableElement(cfv) {
    }
    if f.converter.Some? {
      var attributeConverter := converters.Get(f.converter);
      return Column(f.name, Single(toDatabase(attributeConverter.value.cls, GetValue(cfv))));
    }
    return Column(f.name, Single(GetValue(cfv)));
  }
}
