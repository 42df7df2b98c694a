/** Backend-neutral queries: a target collection and an optional condition
    tree (the model's stand-in for the backend's DocumentQuery,
    DocumentDeleteQuery and ColumnDeleteQuery). */
module Conditions {
  import opened Values

  datatype Condition =
    | Eq(name: string, value: Value)
    | Gt(name: string, value: Value)
    | Gte(name: string, value: Value)
    | Lt(name: string, value: Value)
    | Lte(name: string, value: Value)
    | Like(name: string, value: Value)
    | Between(name: string, low: Value, high: Value)
    | Not(operand: Condition)
    | And(left: Condition, right: Condition)
    | Or(left: Condition, right: Condition)

  /** A select query on `collection`; no condition selects everything. */
  datatype Query = Query(collection: string, condition: Option<Condition>)

  /** A delete query on `collection`; no condition deletes everything. */
  datatype DeleteQuery = DeleteQuery(collection: string, condition: Option<Condition>)

  /** The query `DocumentQuery.of(collection).with(eq(name, value))`. */
  function EqQuery(collection: string, name: string, value: Value): Query
  {
    Query(collection, Some(Eq(name, value)))
  }

  /** The delete query `DocumentDeleteQuery.of(collection).with(eq(name, value))`. */
  function EqDeleteQuery(collection: string, name: string, value: Value): DeleteQuery
  {
    DeleteQuery(collection, Some(Eq(name, value)))
  }
}
