/** Entity metadata: what reflection discovers about a persistent class and
    its fields. Reflection itself is not modelled; these are its results. */
module Mapping {
  import opened Values

  /** The kinds of persistent field (org.jnosql.artemis.reflection.FieldType). */
  datatype FieldType = Default | Embedded | Collection | SubEntity

  /** The declared Java type of a field, as far as operand coercion needs it. */
  datatype JavaType = IntType | LongType | StringType | OtherType(name: string)

  /** A java.lang.Class, identified by its fully qualified name. */
  datatype JavaClass = JavaClass(name: string)

  /** An AttributeConverter implementation class. */
  datatype ConverterClass = ConverterClass(name: string)

  /** A java.lang.reflect.Field: the Java name of the field and its type. */
  datatype NativeField = NativeField(javaName: string, javaType: JavaType)

  /** FieldMapping / FieldRepresentation: the attribute `name` the field is
      stored under, its native field, its kind, the converter it declares,
      whether it is a collection whose element class is @Embeddable, and for
      an embedded or sub-entity field the fields of the nested class. */
  datatype FieldMapping = FieldMapping(
    name: string,
    field: NativeField,
    kind: FieldType,
    converter: Option<ConverterClass>,
    embeddableElement: bool,
    nested: seq<FieldMapping>)

  /** ClassRepresentation: the entity name, the Java class it describes, its
      fields in declaration order and its id field, if any. */
  datatype ClassRepresentation = ClassRepresentation(
    name: string,
    classEntity: JavaClass,
    fields: seq<FieldMapping>,
    id: Option<FieldMapping>)
}
