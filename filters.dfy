/**
 * Bound filters (EloquentBoundFilter) and what applying them does. The source
 * stores an `applyFn` closure in each bound filter; here that closure is the
 * tagged `Filter` it was built from, so a filter tree can be inspected and its
 * effect on a query stated as a function (`Effect`) that `Apply` is proved to perform.
 */
module Filters {
  import opened Wrappers
  import opened Query
  import opened Operations

  datatype GroupType = And | Or

  /** What a bound filter does when applied: the closure the strategy built. */
  datatype Filter =
      /** A leaf rule: `operation` on the attribute the field resolver yields. */
    | Rule(attribute: string, operation: Operation, value: Value)
      /** An AND/OR group of children, all applied inside one nested `where` scope. */
    | Group(groupType: GroupType, children: seq<BoundFilter>)
      /** A group applied, through the relation resolver, to the query of `className`. */
    | Relation(className: string, groupType: GroupType, children: seq<BoundFilter>)

  /**
   * A deferred "apply yourself to this query" unit for queries on `entity`.
   * Being a datatype value it cannot change after construction.
   */
  datatype BoundFilter = BoundFilter(entity: string, applyFn: Filter)
  {
    /**
     * Runs the stored `applyFn` on `q`, once: on success `q` gains exactly the
     * calls of `Effect(this)`; on error the error comes out unchanged and `q`
     * is as it was.
     */
    method Apply(q: QueryContext) returns (err: Option<Error>)
      modifies q
      decreases this
      ensures Effect(this).Ok? ==> err == None && q.log == old(q.log) + Effect(this).value
      ensures Effect(this).Err? ==> err == Some(Effect(this).error) && q.log == old(q.log)
    {
      match applyFn
      case Rule(attribute, operation, value) =>
        // The field resolver calls back once with the rule's attribute and `q`.
        err := ApplyOperation(operation, q, attribute, value);
      case Group(groupType, children) =>
        // `$qry->where(closure)`: the closure runs on a nested query.
        var nested := new QueryContext();
        err := ApplyChildren(groupType, children, nested);
        if err == None {
          assert q.log == old(q.log) && nested.log == ChildrenTrace(groupType, children).calls;
          q.WhereNested(nested.log);
        }
      case Relation(className, groupType, children) =>
        // The relation resolver runs the children on the related query, unwrapped.
        var related := new QueryContext();
        err := ApplyChildren(groupType, children, related);
        if err == None {
          assert q.log == old(q.log) && related.log == ChildrenTrace(groupType, children).calls;
          q.WhereRelation(className, related.log);
        }
    }
  }

  /** The calls the children of a group append to the query they are given, and the error that stopped them. */
  datatype Trace = Trace(calls: seq<Call>, error: Option<Error>)

  /** How one child's calls land in the group's query: directly for AND, in an `orWhere` scope for OR. */
  function Wrap(groupType: GroupType, calls: seq<Call>): seq<Call>
  {
    match groupType
    case And => calls
    case Or => [OrWhereScope(calls)]
  }

  /**
   * What applying `f` to a query appends to it (always exactly one call), or the
   * error applying it raises.
   */
  function Effect(f: BoundFilter): (r: Result<seq<Call>, Error>)
    decreases f
    ensures r.Ok? ==> |r.value| == 1
  {
    match f.applyFn
    case Rule(attribute, operation, value) =>
      (match OperationCall(operation, attribute, value)
       case Ok(call) => Ok([call])
       case Err(e) => Err(e))
    case Group(groupType, children) =>
      var t := ChildrenTrace(groupType, children);
      if t.error.Some? then Err(t.error.value) else Ok([WhereScope(t.calls)])
    case Relation(className, groupType, children) =>
      var t := ChildrenTrace(groupType, children);
      if t.error.Some? then Err(t.error.value) else Ok([RelationScope(className, t.calls)])
  }

  /**
   * Applying `children` in order to one query: each child's calls, wrapped as
   * `groupType` asks, until the first child that raises an error.
   */
  function ChildrenTrace(groupType: GroupType, children: seq<BoundFilter>): Trace
    decreases children
  {
    if children == [] then Trace([], None)
    else
      match Effect(children[0])
      case Err(e) => Trace([], Some(e))
      case Ok(calls) =>
        var rest := ChildrenTrace(groupType, children[1..]);
        Trace(Wrap(groupType, calls) + rest.calls, rest.error)
  }

  /**
   * Running two lists of children one after the other is running their
   * concatenation; once the first list fails the second is never reached.
   */
  lemma {:induction false} ChildrenTraceAppend(groupType: GroupType, front: seq<BoundFilter>, back: seq<BoundFilter>)
    ensures var t, u := ChildrenTrace(groupType, front), ChildrenTrace(groupType, back);
      ChildrenTrace(groupType, front + back)
      == if t.error.Some? then t else Trace(t.calls + u.calls, u.error)
    decreases front
  {
    if front != [] {
      assert (front + back)[0] == front[0];
      assert (front + back)[1..] == front[1..] + back;
      ChildrenTraceAppend(groupType, front[1..], back);
    } else {
      assert front + back == back;
    }
  }

  /** The loop of getApplyChildrenFn: applies each child to `q`, in order, as `groupType` asks. */
  method ApplyChildren(groupType: GroupType, children: seq<BoundFilter>, q: QueryContext)
    returns (err: Option<Error>)
    modifies q
    decreases children
    ensures q.log == old(q.log) + ChildrenTrace(groupType, children).calls
    ensures err == ChildrenTrace(groupType, children).error
  {
    err := None;
    var i := 0;
    while i < |children|
      invariant 0 <= i <= |children|
      invariant err == ChildrenTrace(groupType, children[..i]).error == None
      invariant q.log == old(q.log) + ChildrenTrace(groupType, children[..i]).calls
    {
      var child := children[i];
      ChildrenTraceAppend(groupType, children[..i], [child]);
      assert children[..i + 1] == children[..i] + [child];
      assert ChildrenTrace(groupType, [child]).calls
          == if Effect(child).Ok? then Wrap(groupType, Effect(child).value) else [];
      if groupType == And {
        err := child.Apply(q);
      } else {
        // `$qry->orWhere(closure)`: the child runs on a nested query.
        var scope := new QueryContext();
        err := child.Apply(scope);
        if err == None {
          assert q.log == old(q.log) + ChildrenTrace(groupType, children[..i]).calls;
          assert scope.log == Effect(child).value;
          q.OrWhereNested(scope.log);
        }
      }
      if err != None {
        // The exception leaves the loop; the children after `child` never run.
        ChildrenTraceAppend(groupType, children[..i + 1], children[i + 1..]);
        assert children[..i + 1] + children[i + 1..] == children;
        return;
      }
      i := i + 1;
    }
    assert children[..i] == children;
  }
}
