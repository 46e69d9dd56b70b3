/**
 * The primitive comparison operations of a rule and the one builder call each
 * of them appends (EloquentStrategy::applyOperation).
 */
module Operations {
  import opened Wrappers
  import opened Query
  import opened Text

  datatype Operation = Equals | GreaterThan | LessThan | StartsWith | OneOf

  /** The only error the filter core raises itself: STARTS_WITH given an array (a LogicException). */
  datatype Error = InvalidOperationValue

  /** The LIKE pattern STARTS_WITH builds from a scalar: the value followed by `%`. */
  function StartsWithPattern(v: Scalar): (p: string)
    ensures |p| >= 1 && p[|p| - 1] == '%' && p[..|p| - 1] == Interpolate(v)
  {
    Interpolate(v) + "%"
  }

  /** The call `op` appends for `attribute` and `value`, or the error it raises. */
  function OperationCall(op: Operation, attribute: string, value: Value): (r: Result<Call, Error>)
    ensures r.Err? <==> op == StartsWith && value.Array?
    ensures op == Equals ==> r == Ok(Where(attribute, Equal, value))
    ensures op == GreaterThan ==> r == Ok(Where(attribute, Greater, value))
    ensures op == LessThan ==> r == Ok(Where(attribute, Less, value))
    ensures op == StartsWith && value.Single? ==>
              r == Ok(Where(attribute, Like, Single(StrScalar(StartsWithPattern(value.scalar)))))
    ensures op == OneOf ==> r == Ok(WhereIn(attribute, value))
  {
    match op
    case Equals => Ok(Where(attribute, Equal, value))
    case GreaterThan => Ok(Where(attribute, Greater, value))
    case LessThan => Ok(Where(attribute, Less, value))
    case StartsWith =>
      if value.Array? then Err(InvalidOperationValue)
      else Ok(Where(attribute, Like, Single(StrScalar(StartsWithPattern(value.scalar)))))
    case OneOf => Ok(WhereIn(attribute, value))
  }

  /**
   * Applies `op` to `q`: appends exactly the one call of `OperationCall`, or
   * raises its error and appends nothing.
   */
  method ApplyOperation(op: Operation, q: QueryContext, attribute: string, value: Value)
    returns (err: Option<Error>)
    modifies q
    ensures OperationCall(op, attribute, value).Ok? ==>
              err == None && q.log == old(q.log) + [OperationCall(op, attribute, value).value]
    ensures OperationCall(op, attribute, value).Err? ==>
              err == Some(OperationCall(op, attribute, value).error) && q.log == old(q.log)
    ensures op == StartsWith && value.Array? ==> err == Some(InvalidOperationValue) && q.log == old(q.log)
  {
    err := None;
    match op
    case Equals =>
      q.Where(attribute, Equal, value);
    case GreaterThan =>
      q.Where(attribute, Greater, value);
    case LessThan =>
      q.Where(attribute, Less, value);
    case StartsWith =>
      if value.Array? {
        err := Some(InvalidOperationValue);
        return;
      }
      q.Where(attribute, Like, Single(StrScalar(Interpolate(value.scalar) + "%")));
    case OneOf =>
      q.WhereIn(attribute, value);
  }

  /**
   * STARTS_WITH on a scalar whose text holds no wildcard constrains the attribute
   * to exactly the texts that start with that value.
   */
  lemma StartsWithMeansPrefix(attribute: string, v: Scalar, subject: string)
    requires NoWildcards(Interpolate(v))
    ensures OperationCall(StartsWith, attribute, Single(v)).Ok?
    ensures var c := OperationCall(StartsWith, attribute, Single(v)).value;
      c.Where? && c.cmp == Like && c.value.Single? && c.value.scalar.StrScalar?
      && (LikeMatches(c.value.scalar.s, subject) <==> Interpolate(v) <= subject)
  {
    LikePrefixMatchesStartsWith(Interpolate(v), subject);
  }

  /** For an int value the prefix is its decimal text, which never holds a wildcard. */
  lemma StartsWithIntMeansDecimalPrefix(attribute: string, n: int, subject: string)
    ensures var c := OperationCall(StartsWith, attribute, Single(IntScalar(n)));
      c.Ok? && c.value.Where? && c.value.value.Single? && c.value.value.scalar.StrScalar?
      && (LikeMatches(c.value.value.scalar.s, subject) <==> DecimalString(n) <= subject)
  {
    DecimalStringHasNoWildcards(n);
    StartsWithMeansPrefix(attribute, IntScalar(n), subject);
  }
}
