/** Properties of compiled filters that relate several calls or whole trees. */
module Properties {
  import opened Wrappers
  import opened Query
  import opened Operations
  import opened Filters
  import opened Strategy

  /** Applying each filter of `children` directly to a query holding `log`, one after another. */
  function ApplyInTurn(children: seq<BoundFilter>, log: seq<Call>): Result<seq<Call>, Error>
    decreases children
  {
    if children == [] then Ok(log)
    else
      match Effect(children[0])
      case Err(e) => Err(e)
      case Ok(calls) => ApplyInTurn(children[1..], log + calls)
  }

  /** The children of an AND group land in its scope exactly as if applied one after another. */
  lemma {:induction false} AndGroupAppliesChildrenInTurn(children: seq<BoundFilter>, log: seq<Call>)
    ensures var t := ChildrenTrace(And, children);
      ApplyInTurn(children, log) == if t.error == None then Ok(log + t.calls) else Err(t.error.value)
    decreases children
  {
    if children != [] {
      match Effect(children[0])
      case Err(e) =>
      case Ok(calls) =>
        AndGroupAppliesChildrenInTurn(children[1..], log + calls);
        var rest := ChildrenTrace(And, children[1..]).calls;
        assert log + calls + rest == log + (calls + rest);
    } else {
      assert log + [] == log;
    }
  }

  /**
   * An OR group holds one `orWhere` scope per child, in child order, each holding
   * exactly that child's calls; a failing child ends the list.
   */
  lemma {:induction false} OrGroupIsolatesChildren(children: seq<BoundFilter>)
    ensures var t := ChildrenTrace(Or, children);
      && |t.calls| <= |children|
      && (forall i :: 0 <= i < |t.calls| ==>
            Effect(children[i]).Ok? && t.calls[i] == OrWhereScope(Effect(children[i]).value))
      && (t.error == None <==> |t.calls| == |children|)
      && (t.error != None ==> Effect(children[|t.calls|]) == Err(t.error.value))
    decreases children
  {
    if children != [] {
      match Effect(children[0])
      case Err(e) =>
      case Ok(calls) =>
        OrGroupIsolatesChildren(children[1..]);
        var t, rest := ChildrenTrace(Or, children), ChildrenTrace(Or, children[1..]);
        assert t.calls == [OrWhereScope(calls)] + rest.calls;
        forall i | 1 <= i < |t.calls|
          ensures Effect(children[i]).Ok? && t.calls[i] == OrWhereScope(Effect(children[i]).value)
        {
          assert t.calls[i] == rest.calls[i - 1] && children[i] == children[1..][i - 1];
        }
    }
  }

  /** Does a STARTS_WITH rule with an array value occur anywhere in `f`? */
  predicate HasArrayStartsWith(f: BoundFilter)
    decreases f
  {
    match f.applyFn
    case Rule(_, operation, value) => operation == StartsWith && value.Array?
    case Group(_, children) => exists i :: 0 <= i < |children| && HasArrayStartsWith(children[i])
    case Relation(_, _, children) => exists i :: 0 <= i < |children| && HasArrayStartsWith(children[i])
  }

  /** The one error case: applying a filter fails exactly when it holds STARTS_WITH on an array. */
  lemma {:induction false} EffectFailsIff(f: BoundFilter)
    ensures Effect(f).Err? <==> HasArrayStartsWith(f)
    decreases f
  {
    match f.applyFn
    case Rule(_, _, _) =>
    case Group(groupType, children) => ChildrenFailIff(groupType, children);
    case Relation(_, groupType, children) => ChildrenFailIff(groupType, children);
  }

  lemma {:induction false} ChildrenFailIff(groupType: GroupType, children: seq<BoundFilter>)
    ensures ChildrenTrace(groupType, children).error != None
        <==> exists i :: 0 <= i < |children| && HasArrayStartsWith(children[i])
    decreases children
  {
    if children != [] {
      EffectFailsIff(children[0]);
      ChildrenFailIff(groupType, children[1..]);
      if exists i :: 1 <= i < |children| && HasArrayStartsWith(children[i]) {
        var i :| 1 <= i < |children| && HasArrayStartsWith(children[i]);
        assert children[1..][i - 1] == children[i];
      }
      if exists i :: 0 <= i < |children[1..]| && HasArrayStartsWith(children[1..][i]) {
        var i :| 0 <= i < |children[1..]| && HasArrayStartsWith(children[1..][i]);
        assert children[i + 1] == children[1..][i];
      }
    }
  }

  /** With no children a group holds an empty scope and a relation an empty related query. */
  lemma EmptyGroupAndRelationHoldNoCall(s: EloquentStrategy, groupType: GroupType, className: string)
    ensures Effect(s.MakeGroupBoundFilter(groupType, [])) == Ok([WhereScope([])])
    ensures Effect(s.MakeRelation(className, groupType, [])) == Ok([RelationScope(className, [])])
  {
  }

  /**
   * A group and a relation over the same children carry the same calls; the
   * group puts them in a nested `where` scope, the relation hands them to the resolver.
   */
  lemma GroupAndRelationDifferOnlyInWrapping(s: EloquentStrategy, className: string,
                                             groupType: GroupType, children: seq<BoundFilter>)
    requires ChildrenTrace(groupType, children).error == None
    ensures var calls := ChildrenTrace(groupType, children).calls;
      Effect(s.MakeGroupBoundFilter(groupType, children)) == Ok([WhereScope(calls)])
      && Effect(s.MakeRelation(className, groupType, children)) == Ok([RelationScope(className, calls)])
  {
  }

  /**
   * A three-level tree: status = active AND (age > 18 OR role in [admin, owner])
   * AND some order with total < 100.
   */
  lemma ThreeLevelTreeScenario()
    ensures
      var users, orders := EloquentStrategy("User"), EloquentStrategy("Order");
      var admins := Array([StrScalar("admin"), StrScalar("owner")]);
      var root := users.MakeGroupBoundFilter(And, [
        users.MakeRule("status", Equals, Single(StrScalar("active"))),
        users.MakeGroupBoundFilter(Or, [
          users.MakeRule("age", GreaterThan, Single(IntScalar(18))),
          users.MakeRule("role", OneOf, admins)]),
        users.MakeRelation("Order", And, [orders.MakeRule("total", LessThan, Single(IntScalar(100)))])]);
      Effect(root) == Ok([WhereScope([
        Where("status", Equal, Single(StrScalar("active"))),
        WhereScope([
          OrWhereScope([Where("age", Greater, Single(IntScalar(18)))]),
          OrWhereScope([WhereIn("role", admins)])]),
        RelationScope("Order", [Where("total", Less, Single(IntScalar(100)))])])])
  {
    var users, orders := EloquentStrategy("User"), EloquentStrategy("Order");
    var admins := Array([StrScalar("admin"), StrScalar("owner")]);
    var status := users.MakeRule("status", Equals, Single(StrScalar("active")));
    var age := users.MakeRule("age", GreaterThan, Single(IntScalar(18)));
    var role := users.MakeRule("role", OneOf, admins);
    var total := orders.MakeRule("total", LessThan, Single(IntScalar(100)));
    var either := users.MakeGroupBoundFilter(Or, [age, role]);
    var related := users.MakeRelation("Order", And, [total]);
    assert Effect(status) == Ok([Where("status", Equal, Single(StrScalar("active")))]);
    assert Effect(age) == Ok([Where("age", Greater, Single(IntScalar(18)))]);
    assert Effect(role) == Ok([WhereIn("role", admins)]);
    assert Effect(total) == Ok([Where("total", Less, Single(IntScalar(100)))]);
    OrGroupIsolatesChildren([age, role]);
    assert [age, role][1..] == [role] && [role][1..] == [];
    var orCalls := ChildrenTrace(Or, [age, role]).calls;
    assert |orCalls| == 2 && orCalls[0] == OrWhereScope(Effect(age).value)
      && orCalls[1] == OrWhereScope(Effect(role).value);
    assert orCalls == [orCalls[0], orCalls[1]];
    assert Effect(either) == Ok([WhereScope([
      OrWhereScope([Where("age", Greater, Single(IntScalar(18)))]),
      OrWhereScope([WhereIn("role", admins)])])]);
    assert [total][1..] == [];
    assert ChildrenTrace(And, [total]) == Trace([Where("total", Less, Single(IntScalar(100)))], None);
    assert Effect(related) == Ok([RelationScope("Order", [Where("total", Less, Single(IntScalar(100)))])]);
    var children := [status, either, related];
    assert children[1..] == [either, related] && children[1..][1..] == [related] && [related][1..] == [];
    assert ChildrenTrace(And, [related]) == Trace(Effect(related).value, None);
    assert ChildrenTrace(And, children[1..]) == Trace(Effect(either).value + Effect(related).value, None);
    assert ChildrenTrace(And, children)
        == Trace(Effect(status).value + (Effect(either).value + Effect(related).value), None);
    assert ChildrenTrace(And, children).calls == [
      Where("status", Equal, Single(StrScalar("active"))),
      WhereScope([
        OrWhereScope([Where("age", Greater, Single(IntScalar(18)))]),
        OrWhereScope([WhereIn("role", admins)])]),
      RelationScope("Order", [Where("total", Less, Single(IntScalar(100)))])];
  }

  /** Applying one filter to two fresh contexts leaves both with the same calls. */
  method ApplyToFreshContexts(f: BoundFilter) returns (log1: seq<Call>, log2: seq<Call>)
    ensures log1 == log2
    ensures log1 == if Effect(f).Ok? then Effect(f).value else []
  {
    var q1 := new QueryContext();
    var err1 := f.Apply(q1);
    var q2 := new QueryContext();
    var err2 := f.Apply(q2);
    log1, log2 := q1.log, q2.log;
  }

  /**
   * Applying a filter twice to one context appends its calls twice; an error is
   * raised both times. Shown from a fresh context; for any context the same
   * follows from the contract of `BoundFilter.Apply`.
   */
  method ApplyTwice(f: BoundFilter) returns (log: seq<Call>, err1: Option<Error>, err2: Option<Error>)
    ensures Effect(f).Ok? ==> err1 == err2 == None && log == Effect(f).value + Effect(f).value
    ensures Effect(f).Err? ==> err1 == err2 == Some(Effect(f).error) && log == []
  {
    var q := new QueryContext();
    err1 := f.Apply(q);
    err2 := f.Apply(q);
    log := q.log;
  }
}
