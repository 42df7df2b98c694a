/** The column delete-query mapper (`mapperBuilder.deleteFrom(Entity.class)`):
    a fluent builder keyed by Java field names that emits the delete query a
    backend's own builder would build on the mapped attribute names. Each
    field name is resolved through the entity's metadata, and each operand
    goes through the field's converter or is coerced to the field's type. */
module DeleteQueryMapper {
  import opened Values
  import opened Mapping
  import opened Conditions

  // ---- decimal numerals ----

  function DigitChar(d: nat): char
    requires d < 10
  {
    ('0' as int + d) as char
  }

  predicate IsDigit(c: char)
  {
    '0' <= c <= '9'
  }

  /** Every character of `s` is a decimal digit. */
  predicate AllDigits(s: string)
  {
    forall i :: 0 <= i < |s| ==> IsDigit(s[i])
  }

  function DigitValue(c: char): (d: nat)
    requires IsDigit(c)
    ensures d < 10 && DigitChar(d) == c
  {
    c as int - '0' as int
  }

  /** The decimal numeral of a natural number, no leading zeros. */
  function Digits(n: nat): (s: string)
    ensures |s| > 0 && AllDigits(s)
    decreases n
  {
    if n < 10 then [DigitChar(n)] else Digits(n / 10) + [DigitChar(n % 10)]
  }

  /** `Long.toString(n)` / `BigDecimal.toString()` of an integral value. */
  function Decimal(n: int): string
  {
    if n < 0 then "-" + Digits(-n) else Digits(n)
  }

  /** The number a string of digits denotes. */
  function DigitsValue(s: string): nat
    requires AllDigits(s)
    decreases |s|
  {
    if s == [] then 0 else DigitsValue(s[..|s| - 1]) * 10 + DigitValue(s[|s| - 1])
  }

  /** `Long.parseLong(s)` without the 64-bit range: an optional sign followed by
      at least one digit. */
  function ParseDecimal(s: string): (r: Option<int>)
    ensures r.Some? ==> |s| > 0
  {
    if |s| > 0 && (s[0] == '-' || s[0] == '+') then
      var body := s[1..];
      if |body| > 0 && AllDigits(body) then
        Some(if s[0] == '-' then -(DigitsValue(body) as int) else DigitsValue(body) as int)
      else None
    else if |s| > 0 && AllDigits(s) then Some(DigitsValue(s))
    else None
  }

  lemma {:induction false} DigitsValueOfDigits(n: nat)
    ensures DigitsValue(Digits(n)) == n
    decreases n
  {
    if n >= 10 {
      var s := Digits(n);
      assert s[..|s| - 1] == Digits(n / 10);
      DigitsValueOfDigits(n / 10);
    }
  }

  /** An unsigned numeral parses to its value. */
  lemma ParseDigits(s: string)
    requires |s| > 0 && AllDigits(s)
    ensures ParseDecimal(s) == Some(DigitsValue(s))
  {
    assert IsDigit(s[0]);
  }

  /** Parsing is the inverse of printing. */
  lemma ParseDecimalOfDecimal(n: int)
    ensures ParseDecimal(Decimal(n)) == Some(n)
  {
    if n < 0 {
      var s := Decimal(n);
      assert s[0] == '-' && s[1..] == Digits(-n);
      DigitsValueOfDigits(-n);
    } else {
      ParseDigits(Digits(n));
      DigitsValueOfDigits(n);
    }
  }

  /** A string with no digit at all is not a number. */
  lemma ParseDecimalRejectsNonNumeral(s: string)
    requires forall i :: 0 <= i < |s| ==> !IsDigit(s[i])
    ensures ParseDecimal(s) == None
  {
    if |s| > 1 {
      assert !IsDigit(s[1..][0]);
    }
  }

  // ---- field-name resolution ----

  /** The field of `fields` whose Java name is `javaName`, if any. */
  function FindField(fields: seq<FieldMapping>, javaName: string): (r: Option<FieldMapping>)
    ensures r.Some? ==> r.value in fields && r.value.field.javaName == javaName
    ensures r.None? ==> forall f :: f in fields ==> f.field.javaName != javaName
  {
    FindFieldFrom(fields, javaName, 0)
  }

  /** The first field at index `i` or later whose Java name is `javaName`. */
  function FindFieldFrom(fields: seq<FieldMapping>, javaName: string, i: nat): (r: Option<FieldMapping>)
    requires i <= |fields|
    ensures r.Some? ==> r.value in fields && r.value.field.javaName == javaName
    ensures r.None? ==> forall j :: i <= j < |fields| ==> fields[j].field.javaName != javaName
    decreases |fields| - i
  {
    if i == |fields| then None
    else if fields[i].field.javaName == javaName then Some(fields[i])
    else FindFieldFrom(fields, javaName, i + 1)
  }

  /** The index of the first '.' in `s`, if any. */
  function DotIndex(s: string): (r: Option<nat>)
    ensures r.Some? ==> r.value < |s| && s[r.value] == '.' && '.' !in s[..r.value]
    ensures r.None? ==> '.' !in s
  {
    DotIndexFrom(s, 0)
  }

  /** The index of the first '.' at `i` or later. */
  function DotIndexFrom(s: string, i: nat): (r: Option<nat>)
    requires i <= |s|
    ensures r.Some? ==> i <= r.value < |s| && s[r.value] == '.' && forall j :: i <= j < r.value ==> s[j] != '.'
    ensures r.None? ==> forall j :: i <= j < |s| ==> s[j] != '.'
    decreases |s| - i
  {
    if i == |s| then None
    else if s[i] == '.' then Some(i)
    else DotIndexFrom(s, i + 1)
  }

  /** The first dot of `head.rest` is the one after `head`, if `head` has none. */
  lemma {:induction false} DotIndexOfJoin(head: string, rest: string)
    requires '.' !in head
    ensures DotIndex(head + "." + rest) == Some(|head|)
  {
    if head != [] {
      assert (head + "." + rest)[1..] == head[1..] + "." + rest;
      DotIndexOfJoin(head[1..], rest);
    }
  }

  /** A Java field path resolved to the attribute it is stored under and the
      field that holds the value. */
  datatype Resolved = Resolved(attribute: string, field: FieldMapping)

  /** Resolves `path` against `fields`. A plain name is the mapped name of the
      field with that Java name, which is how the id field is aliased to
      `_id`. In a dotted path the head must be an embedded field, whose
      attribute prefixes the rest (`job.city`), or a sub-entity, whose nested
      attribute stands alone (`zipcode.zip` to `zip`). */
  function Resolve(fields: seq<FieldMapping>, path: string): (r: Result<Resolved>)
    ensures r.Err? ==> r.error.UnknownField?
    decreases fields
  {
    match DotIndex(path)
    case None =>
      (match FindField(fields, path)
       case None => Err(UnknownField(path))
       case Some(f) => Ok(Resolved(f.name, f)))
    case Some(dot) =>
      var head := path[..dot];
      var rest := path[dot + 1..];
      match FindField(fields, head)
      case None => Err(UnknownField(head))
      case Some(f) =>
        if f.kind == Embedded || f.kind == SubEntity then
          match Resolve(f.nested, rest)
          case Err(e) => Err(e)
          case Ok(inner) =>
            Ok(Resolved(if f.kind == Embedded then f.name + "." + inner.attribute else inner.attribute,
                        inner.field))
        else Err(UnknownField(path))
  }

  /** A name without a dot resolves to its field exactly when some field has
      that Java name, and then to the field's own attribute name. */
  lemma ResolvePlainName(fields: seq<FieldMapping>, name: string)
    requires '.' !in name
    ensures Resolve(fields, name).Ok? <==> exists f :: f in fields && f.field.javaName == name
    ensures Resolve(fields, name).Ok? ==>
      var r := Resolve(fields, name).value;
      r.field in fields && r.field.field.javaName == name && r.attribute == r.field.name
  {
  }

  /** A dotted path through an embedded field keeps the embedded field's
      attribute as a prefix; one through a sub-entity drops it. */
  lemma ResolveDottedPath(fields: seq<FieldMapping>, head: string, rest: string, f: FieldMapping)
    requires '.' !in head && FindField(fields, head) == Some(f)
    requires f.kind == Embedded || f.kind == SubEntity
    ensures var r := Resolve(fields, head + "." + rest);
            match Resolve(f.nested, rest)
            case Err(e) => r == Err(e)
            case Ok(inner) =>
              r == Ok(Resolved(if f.kind == Embedded then f.name + "." + inner.attribute else inner.attribute,
                               inner.field))
  {
    var path := head + "." + rest;
    DotIndexOfJoin(head, rest);
    assert path[..|head|] == head;
    assert path[|head| + 1..] == rest;
  }

  // ---- operands ----

  /** `Value.get(fieldType)`: the operand in the representation of the field's
      Java type. Numbers are widened or parsed; other types pass through. */
  function Coerce(t: JavaType, v: Value): (r: Result<Value>)
    ensures v == Null ==> r == Ok(Null)
    ensures r.Err? ==> r.error == NotConvertible || (v.Str? && r.error == NumberFormat(v.s))
  {
    if v == Null then Ok(Null)
    else match t
      case LongType =>
        (match v
         case Int(i) => Ok(Long(i))
         case Long(l) => Ok(Long(l))
         case Str(s) => (match ParseDecimal(s) case Some(n) => Ok(Long(n)) case None => Err(NumberFormat(s)))
         case _ => Err(NotConvertible))
      case IntType =>
        (match v
         case Int(i) => Ok(Int(i))
         case Long(l) => Ok(Int(l))
         case Str(s) => (match ParseDecimal(s) case Some(n) => Ok(Int(n)) case None => Err(NumberFormat(s)))
         case _ => Err(NotConvertible))
      case _ => Ok(v)
  }

  /** A long field takes any integral operand, and a numeral in a string, as
      the same number. */
  lemma CoerceToLong(n: int)
    ensures Coerce(LongType, Int(n)) == Ok(Long(n))
    ensures Coerce(LongType, Long(n)) == Ok(Long(n))
    ensures Coerce(LongType, Str(Decimal(n))) == Ok(Long(n))
  {
    ParseDecimalOfDecimal(n);
  }

  /** The literal a condition holds for `v` on field `f`: converted to the
      database form when the field declares a converter, otherwise coerced. */
  function Operand(f: FieldMapping, v: Value, toDatabase: (ConverterClass, Value) -> Value): (r: Result<Value>)
    ensures f.converter.Some? ==> r == Ok(toDatabase(f.converter.value, v))
    ensures f.converter.None? ==> r == Coerce(f.field.javaType, v)
  {
    match f.converter
    case Some(c) => Ok(toDatabase(c, v))
    case None => Coerce(f.field.javaType, v)
  }

  // ---- the builder ----

  /** How the condition being built joins what came before it. */
  datatype Link = First | AndWith(previous: Condition) | OrWith(previous: Condition)

  /** A named condition awaiting its operator: the resolved attribute and
      field, whether `not()` was called, and how it joins the earlier ones. */
  datatype Pending = Pending(attribute: string, field: FieldMapping, negated: bool, link: Link)

  /** Where a fluent chain stands: after `deleteFrom`, after `where`/`and`/`or`
      (a name awaiting its operator), after an operator, or failed with the
      exception that ended the chain. */
  datatype Stage =
    | From
    | Named(pending: Pending)
    | Conditioned(condition: Condition)
    | Failed(error: Error)

  /** The builder: the entity's representation, the converter instances'
      `convertToDatabaseColumn`, and the stage. */
  datatype Builder = Builder(entity: ClassRepresentation,
                             toDatabase: (ConverterClass, Value) -> Value,
                             stage: Stage)

  /** `deleteFrom(entityClass)`, given the class's representation. */
  function DeleteFrom(entity: ClassRepresentation, toDatabase: (ConverterClass, Value) -> Value): (b: Builder)
    ensures b.entity == entity && b.stage == From
  {
    Builder(entity, toDatabase, From)
  }

  /** Starts a condition on Java field path `name`, joined by `link`. */
  function Name(b: Builder, name: string, link: Link): (r: Builder)
    ensures r.entity == b.entity && r.toDatabase == b.toDatabase
    ensures r.stage.Named? <==> Resolve(b.entity.fields, name).Ok?
    ensures r.stage.Named? ==>
      r.stage.pending == Pending(Resolve(b.entity.fields, name).value.attribute,
                                 Resolve(b.entity.fields, name).value.field, false, link)
  {
    match Resolve(b.entity.fields, name)
    case Ok(resolved) => b.(stage := Named(Pending(resolved.attribute, resolved.field, false, link)))
    case Err(e) => b.(stage := Failed(e))
  }

  /** `where(name)`: only straight after `deleteFrom`. */
  function Where(b: Builder, name: string): (r: Builder)
    requires b.stage.From? || b.stage.Failed?
    ensures b.stage.Failed? ==> r == b
    ensures b.stage.From? ==> r == Name(b, name, First)
  {
    if b.stage.Failed? then b else Name(b, name, First)
  }

  /** `and(name)`: only after an operator; the new condition is joined by AND. */
  function And(b: Builder, name: string): (r: Builder)
    requires b.stage.Conditioned? || b.stage.Failed?
    ensures b.stage.Failed? ==> r == b
    ensures b.stage.Conditioned? ==> r == Name(b, name, AndWith(b.stage.condition))
  {
    if b.stage.Failed? then b else Name(b, name, AndWith(b.stage.condition))
  }

  /** `or(name)`: only after an operator; the new condition is joined by OR. */
  function Or(b: Builder, name: string): (r: Builder)
    requires b.stage.Conditioned? || b.stage.Failed?
    ensures b.stage.Failed? ==> r == b
    ensures b.stage.Conditioned? ==> r == Name(b, name, OrWith(b.stage.condition))
  {
    if b.stage.Failed? then b else Name(b, name, OrWith(b.stage.condition))
  }

  /** `not()`: once, between a name and its operator. */
  function Not(b: Builder): (r: Builder)
    requires b.stage.Failed? || (b.stage.Named? && !b.stage.pending.negated)
    ensures b.stage.Failed? ==> r == b
    ensures b.stage.Named? ==> r.stage == Named(b.stage.pending.(negated := true))
    ensures r.entity == b.entity && r.toDatabase == b.toDatabase
  {
    if b.stage.Failed? then b else b.(stage := Named(b.stage.pending.(negated := true)))
  }

  /** The kinds of leaf an operator adds. */
  datatype Operator = EqOp | GtOp | GteOp | LtOp | LteOp | LikeOp

  function Leaf(op: Operator, attribute: string, v: Value): Condition
  {
    match op
    case EqOp => Condition.Eq(attribute, v)
    case GtOp => Gt(attribute, v)
    case GteOp => Gte(attribute, v)
    case LtOp => Lt(attribute, v)
    case LteOp => Lte(attribute, v)
    case LikeOp => Like(attribute, v)
  }

  /** The condition a pending name becomes once its leaf is known: negated if
      `not()` was called, then joined to the earlier condition. */
  function Complete(p: Pending, leaf: Condition): (c: Condition)
    ensures p.link.First? ==> c == (if p.negated then Condition.Not(leaf) else leaf)
    ensures p.link.AndWith? ==>
      c == Condition.And(p.link.previous, if p.negated then Condition.Not(leaf) else leaf)
    ensures p.link.OrWith? ==>
      c == Condition.Or(p.link.previous, if p.negated then Condition.Not(leaf) else leaf)
  {
    var condition := if p.negated then Condition.Not(leaf) else leaf;
    match p.link
    case First => condition
    case AndWith(previous) => Condition.And(previous, condition)
    case OrWith(previous) => Condition.Or(previous, condition)
  }

  /** An operator with one operand: `eq`, `gt`, `gte`, `lt`, `lte`, `like`. */
  function Apply(b: Builder, op: Operator, v: Value): (r: Builder)
    requires b.stage.Named? || b.stage.Failed?
    ensures r.entity == b.entity && r.toDatabase == b.toDatabase
    ensures b.stage.Failed? ==> r == b
    ensures b.stage.Named? ==>
      var p := b.stage.pending;
      match Operand(p.field, v, b.toDatabase)
      case Err(e) => r.stage == Failed(e)
      case Ok(x) => r.stage == Conditioned(Complete(p, Leaf(op, p.attribute, x)))
  {
    match b.stage
    case Failed(_) => b
    case Named(p) =>
      match Operand(p.field, v, b.toDatabase)
      case Err(e) => b.(stage := Failed(e))
      case Ok(x) => b.(stage := Conditioned(Complete(p, Leaf(op, p.attribute, x))))
  }

  /** `between(low, high)`: both bounds go through the field's operand rule. */
  function Between(b: Builder, low: Value, high: Value): (r: Builder)
    requires b.stage.Named? || b.stage.Failed?
    ensures r.entity == b.entity && r.toDatabase == b.toDatabase
    ensures b.stage.Failed? ==> r == b
    ensures b.stage.Named? ==>
      var p := b.stage.pending;
      var l := Operand(p.field, low, b.toDatabase);
      var h := Operand(p.field, high, b.toDatabase);
      (l.Err? ==> r.stage == Failed(l.error)) &&
      (l.Ok? && h.Err? ==> r.stage == Failed(h.error)) &&
      (l.Ok? && h.Ok? ==> r.stage == Conditioned(Complete(p, Condition.Between(p.attribute, l.value, h.value))))
  {
    match b.stage
    case Failed(_) => b
    case Named(p) =>
      match Operand(p.field, low, b.toDatabase)
      case Err(e) => b.(stage := Failed(e))
      case Ok(l) =>
        match Operand(p.field, high, b.toDatabase)
        case Err(e) => b.(stage := Failed(e))
        case Ok(h) => b.(stage := Conditioned(Complete(p, Condition.Between(p.attribute, l, h))))
  }

  /** `build()`: a delete on the entity's name carrying the condition built, or
      the exception that ended the chain. */
  function Build(b: Builder): (r: Result<DeleteQuery>)
    requires b.stage.From? || b.stage.Conditioned? || b.stage.Failed?
    ensures b.stage.Failed? <==> r.Err?
    ensures b.stage.Failed? ==> r.error == b.stage.error
    ensures b.stage.From? ==> r == Ok(DeleteQuery(b.entity.name, None))
    ensures b.stage.Conditioned? ==> r == Ok(DeleteQuery(b.entity.name, Some(b.stage.condition)))
  {
    match b.stage
    case Failed(e) => Err(e)
    case From => Ok(DeleteQuery(b.entity.name, None))
    case Conditioned(c) => Ok(DeleteQuery(b.entity.name, Some(c)))
  }

  // ---- the contract, for every entity ----

  /** A single condition on a resolvable name and an acceptable operand is the
      leaf on the mapped attribute with the mapped operand, on the entity's
      name; a `not()` before the operator wraps exactly that leaf. */
  lemma SingleCondition(entity: ClassRepresentation, toDatabase: (ConverterClass, Value) -> Value,
                        name: string, op: Operator, v: Value, negate: bool)
    requires Resolve(entity.fields, name).Ok?
    requires Operand(Resolve(entity.fields, name).value.field, v, toDatabase).Ok?
    ensures var named := Where(DeleteFrom(entity, toDatabase), name);
            var resolved := Resolve(entity.fields, name).value;
            var leaf := Leaf(op, resolved.attribute, Operand(resolved.field, v, toDatabase).value);
            Build(Apply(if negate then Not(named) else named, op, v)) ==
              Ok(DeleteQuery(entity.name, Some(if negate then Condition.Not(leaf) else leaf)))
  {
  }

  /** `and` and `or` keep the earlier condition on the left and put the new
      one, translated the same way and negated if `not()` follows the name,
      on the right. */
  lemma JoinInCallOrder(b: Builder, name: string, op: Operator, v: Value, disjunction: bool, negate: bool)
    requires b.stage.Conditioned?
    requires Resolve(b.entity.fields, name).Ok?
    requires Operand(Resolve(b.entity.fields, name).value.field, v, b.toDatabase).Ok?
    ensures var resolved := Resolve(b.entity.fields, name).value;
            var leaf := Leaf(op, resolved.attribute, Operand(resolved.field, v, b.toDatabase).value);
            var right := if negate then Condition.Not(leaf) else leaf;
            var named := if disjunction then Or(b, name) else And(b, name);
            Build(Apply(if negate then Not(named) else named, op, v)) ==
              Ok(DeleteQuery(b.entity.name, Some(
                if disjunction then Condition.Or(b.stage.condition, right)
                else Condition.And(b.stage.condition, right))))
  {
  }

  /** An unknown field name ends the chain: whatever follows, `build` fails
      with UnknownField. */
  lemma UnknownNameFails(entity: ClassRepresentation, toDatabase: (ConverterClass, Value) -> Value,
                         name: string, op: Operator, v: Value)
    requires '.' !in name && forall f :: f in entity.fields ==> f.field.javaName != name
    ensures Build(Apply(Where(DeleteFrom(entity, toDatabase), name), op, v)) == Err(UnknownField(name))
  {
  }

  /** An operand the field's type cannot take ends the chain with that error. */
  lemma BadOperandFails(b: Builder, op: Operator, v: Value)
    requires b.stage.Named?
    requires Operand(b.stage.pending.field, v, b.toDatabase).Err?
    ensures Build(Apply(b, op, v)) == Err(Operand(b.stage.pending.field, v, b.toDatabase).error)
  {
  }
}
