/**
 * EloquentStrategy: the factories that build bound filters for one entity
 * (model class). They only build values; no query is touched until a filter's
 * `Apply` runs.
 */
module Strategy {
  import opened Wrappers
  import opened Query
  import opened Operations
  import opened Filters

  datatype EloquentStrategy = EloquentStrategy(entity: string)
  {
    /**
     * A group filter: applying it appends one nested `where` scope holding the
     * children's calls (even when there are no children), or raises the error
     * of the first failing child.
     */
    function MakeGroupBoundFilter(groupType: GroupType, children: seq<BoundFilter>): (f: BoundFilter)
      ensures f.entity == entity
      ensures var t := ChildrenTrace(groupType, children);
        Effect(f) == if t.error == None then Ok([WhereScope(t.calls)]) else Err(t.error.value)
    {
      BoundFilter(entity, Group(groupType, children))
    }

    /**
     * A rule filter on `attribute`: applying it appends the one call of
     * `operation`, or raises its error.
     */
    function MakeRule(attribute: string, operation: Operation, value: Value): (f: BoundFilter)
      ensures f.entity == entity
      ensures var c := OperationCall(operation, attribute, value);
        Effect(f) == if c.Ok? then Ok([c.value]) else Err(c.error)
    {
      BoundFilter(entity, Rule(attribute, operation, value))
    }

    /**
     * A relation filter: applying it hands the children's calls, with no extra
     * `where` scope, to the relation resolver, which records them under `className`.
     */
    function MakeRelation(className: string, groupType: GroupType, children: seq<BoundFilter>): (f: BoundFilter)
      ensures f.entity == entity
      ensures var t := ChildrenTrace(groupType, children);
        Effect(f) == if t.error == None then Ok([RelationScope(className, t.calls)]) else Err(t.error.value)
    {
      BoundFilter(entity, Relation(className, groupType, children))
    }
  }
}
