/**
 * The query builder the compiled filters mutate. The real builder belongs to a
 * library outside this model; here it is a recording context: an append-only log
 * of the calls made on it, in the order they were made.
 */
module Query {

  /** A scalar filter value (the source also allows floats, which are not modelled). */
  datatype Scalar = IntScalar(n: int) | StrScalar(s: string)

  /** The value argument of a rule: a scalar, or an array of scalars. */
  datatype Value = Single(scalar: Scalar) | Array(items: seq<Scalar>)

  /**
   * The comparison of a `where` call. `Equal` stands for the two-argument form
   * `where(attribute, value)`, which the builder reads as equality.
   */
  datatype Comparator = Equal | Greater | Less | Like

  /** One call recorded on a query context. */
  datatype Call =
    | Where(attribute: string, cmp: Comparator, value: Value)
    | WhereIn(attribute: string, values: Value)
      /** `where(closure)`: the calls the closure made on a nested query. */
    | WhereScope(scope: seq<Call>)
      /** `orWhere(closure)`: the calls the closure made on a nested query. */
    | OrWhereScope(scope: seq<Call>)
      /** What the relation resolver records: the calls made on the related query. */
    | RelationScope(className: string, scope: seq<Call>)

  /** A recording query context. Every method appends exactly one call. */
  class QueryContext {
    var log: seq<Call>

    constructor ()
      ensures log == []
    {
      log := [];
    }

    method Where(attribute: string, cmp: Comparator, value: Value)
      modifies this
      ensures log == old(log) + [Call.Where(attribute, cmp, value)]
    {
      log := log + [Call.Where(attribute, cmp, value)];
    }

    method WhereIn(attribute: string, values: Value)
      modifies this
      ensures log == old(log) + [Call.WhereIn(attribute, values)]
    {
      log := log + [Call.WhereIn(attribute, values)];
    }

    /** Records a nested `where` group holding the calls of a nested query. */
    method WhereNested(scope: seq<Call>)
      modifies this
      ensures log == old(log) + [WhereScope(scope)]
    {
      log := log + [WhereScope(scope)];
    }

    /** Records a nested `orWhere` group holding the calls of a nested query. */
    method OrWhereNested(scope: seq<Call>)
      modifies this
      ensures log == old(log) + [OrWhereScope(scope)]
    {
      log := log + [OrWhereScope(scope)];
    }

    /** Records a traversal into `className` holding the calls of the related query. */
    method WhereRelation(className: string, scope: seq<Call>)
      modifies this
      ensures log == old(log) + [RelationScope(className, scope)]
    {
      log := log + [RelationScope(className, scope)];
    }
  }
}
