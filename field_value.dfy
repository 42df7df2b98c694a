/** DefaultFieldValue: an immutable pair of a field's runtime value and the
    field's mapping. */
module FieldValues {
  import opened Values
  import opened Mapping

  datatype FieldValue = FieldValue(value: Value, field: FieldMapping)

  /** The constructor: a null mapping (`None`) fails as Objects.requireNonNull
      does; a null value is accepted. */
  function New(value: Value, field: Option<FieldMapping>): (r: Result<FieldValue>)
    ensures field.None? <==> r == Err(NullPointer("field is required"))
    ensures field.Some? ==> r.Ok? && GetValue(r.value) == value && GetField(r.value) == field.value
  {
    if field.None? then Err(NullPointer("field is required")) else Ok(FieldValue(value, field.value))
  }

  function GetValue(fv: FieldValue): Value
  {
    fv.value
  }

  function GetField(fv: FieldValue): FieldMapping
  {
    fv.field
  }

  /** A field value is not empty exactly when its value is not null. */
  function IsNotEmpty(fv: FieldValue): (r: bool)
    ensures r <==> GetValue(fv) != Null
  {
    fv.value != Null
  }

  /** Whatever the constructor was given, the getters give back, and emptiness
      is decided by the value alone. */
  lemma NewThenGet(value: Value, field: FieldMapping)
    ensures New(value, Some(field)).Ok?
    ensures GetValue(New(value, Some(field)).value) == value
    ensures GetField(New(value, Some(field)).value) == field
    ensures IsNotEmpty(New(value, Some(field)).value) <==> value != Null
  {
  }
}
