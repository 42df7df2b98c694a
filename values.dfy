/** Java-level values shared by the whole model: nullable references, the
    exceptions the core raises, and the objects that flow through it. */
module Values {

  datatype Option<+T> = None | Some(value: T)

  /** The exceptions raised by the core, each with the message the code gives it. */
  datatype Error =
    | NullPointer(message: string)              // Objects.requireNonNull; "" when there is no message
    | IdNotFound                                // IdNotFoundException.KEY_NOT_FOUND_EXCEPTION_SUPPLIER
    | ClassInformationNotFound(message: string) // ClassInformationNotFoundException
    | StringIndexOutOfBounds(index: int)        // String.charAt
    | IllegalArgument                           // Method.invoke with arguments that do not fit
    | UnknownField(name: string)                // a query names a field the entity does not have
    | NumberFormat(input: string)               // a string operand that is not a number
    | NotConvertible                            // an operand of a type the field cannot take

  /** A computation that either returns a value or throws one of the errors above. */
  datatype Result<+T> = Ok(value: T) | Err(error: Error)

  /** A Java object as the core sees it. `Int` and `Long` are the boxed
      java.lang.Integer and java.lang.Long; their widths are not modelled. */
  datatype Value =
    | Null
    | Int(i: int)
    | Long(l: int)
    | Str(s: string)
    | Ref(obj: Instance)
    | List(items: seq<Value>)

  /** An instance of a user class: its class name and the values of its
      persistent attributes, keyed by the attribute name each field maps to. */
  datatype Instance = Instance(className: string, attributes: map<string, Value>)

  /** Reading one attribute of a value reflectively; absent attributes and
      non-objects read as null. */
  function Attribute(v: Value, name: string): (r: Value)
    ensures r != Null ==> v.Ref? && name in v.obj.attributes && v.obj.attributes[name] == r
  {
    if v.Ref? && name in v.obj.attributes then v.obj.attributes[name] else Null
  }
}
