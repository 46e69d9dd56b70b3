# Eloquent filter strategy — a Dafny model

This project models the Eloquent back end of a filter builder. A caller builds a
tree of *bound filters* with the factories of `EloquentStrategy`: leaf rules (an
operation on an attribute with a value), AND/OR groups of child filters, and
relations that descend into a related model and apply a group there. Applying the
root filter to a query builder compiles the tree into builder calls:
`where`, `whereIn`, nested `where(closure)` and `orWhere(closure)` scopes, and
whatever the relation resolver records for a relation.

The builder itself belongs to a library outside the model. It is modelled as a
recording query context (`Query.QueryContext`): an append-only log of `Call`
values. A nested scope is run on a fresh context, and its calls are recorded
inside one `WhereScope`, `OrWhereScope` or `RelationScope` call. What the builder
or the database later make of these calls is outside the model. The one exception
is the meaning of the LIKE pattern that STARTS_WITH builds.

Structure:

- `wrappers.dfy`: module `Wrappers`, with `Option` and `Result`.
- `query.dfy`: module `Query`. It holds the filter values (`Scalar`, `Value`), the recorded `Call`s and the recording `QueryContext` class.
- `text.dfy`: module `Text`. It covers how PHP renders an int inside a string (`"{$value}"`), which is proved readable back. It also holds a small SQL LIKE matcher (`%`, `_`), which states what a STARTS_WITH pattern selects.
- `operations.dfy`: module `Operations`, for `applyOperation`. `OperationCall` is the call each operation appends, or its error. `ApplyOperation` is the imperative method proved against it.
- `filters.dfy`: module `Filters`, for `EloquentBoundFilter` and `getApplyChildrenFn`. The closure a bound filter stores becomes the tagged datatype `Filter` (`Rule | Group | Relation`). `BoundFilter` is a datatype, so it cannot change after construction. `Effect` is the specification of applying a filter, and `ChildrenTrace` specifies the children loop. `BoundFilter.Apply` and `ApplyChildren` are the imperative methods, proved to perform exactly those effects.
- `strategy.dfy`: module `Strategy`, with the factories `MakeGroupBoundFilter`, `MakeRule` and `MakeRelation`. They are functions, so building a filter cannot touch any query.
- `properties.dfy`: module `Properties`. It holds the AND, OR, error, wrapping, determinism and repetition properties, and a three-level example tree.

Two behaviours of the code are worth noting. First, a group always wraps its
children's calls in one nested `where` scope (src/EloquentStrategy.php:27), so an
OR group yields a `where` scope holding one `orWhere` scope per child. Second, an
empty group of either kind yields one empty nested scope. Whether a nested scope
with no calls constrains anything is up to the builder, and the builder is not
modelled.

## Model

| member | source | states |
|---|---|---|
| `Operations.OperationCall` | src/EloquentStrategy.php:94-117 | The call of each operation. EQUALS gives one equality `where` and GREATER_THAN one `>` `where`. LESS_THAN gives one `<` `where` and ONE_OF one `whereIn` with the whole value. STARTS_WITH gives a `like` `where` with pattern value + `%`. The result is an error exactly when STARTS_WITH gets an array. |
| `Operations.ApplyOperation` | src/EloquentStrategy.php:94-117 | Applying an operation appends exactly its one call and nothing else. STARTS_WITH with an array raises InvalidOperationValue and appends nothing. |
| `Operations.StartsWithPattern` | src/EloquentStrategy.php:111 | The pattern is the interpolated value followed by one `%`. |
| `Operations.StartsWithMeansPrefix` | src/EloquentStrategy.php:106-111 | For a scalar whose text holds no `%`, `_` or `\`, the `like` call matches exactly the subjects that start with that text. |
| `Operations.StartsWithIntMeansDecimalPrefix` | src/EloquentStrategy.php:111 | For an int value, the `like` call matches exactly the subjects that start with its decimal text. |
| `Text.DecimalStringRoundTrip` | src/EloquentStrategy.php:111 | The text of an interpolated int is a non-empty run of digits with an optional leading `-`. Reading it back gives the int. |
| `Text.DecimalStringHasNoWildcards` | src/EloquentStrategy.php:111 | An interpolated int never contains `%`, `_` or `\`. |
| `Text.LikePrefixMatchesStartsWith` | src/EloquentStrategy.php:111 | If `v` has no `%`, `_` or `\`, `v%` matches a subject iff `v` is a prefix of the subject. Both directions are proved. |
| `Text.WildcardInPrefixBreaksStartsWith` | src/EloquentStrategy.php:111 | The value is not escaped. The pattern `a_%` matches `abc`, which does not start with `a_`. |
| `Filters.BoundFilter.Apply` | src/EloquentBoundFilter.php:24-27 | Applying the stored `applyFn` once on success appends exactly `Effect(this)` to the query. On error it returns the same error unchanged and leaves the query as it was. |
| `Filters.Effect` | src/EloquentStrategy.php:24-67 | Applying any bound filter successfully appends exactly one call to the query it is given. |
| `Filters.ChildrenTraceAppend` | src/EloquentStrategy.php:78-86 | Running two lists of children one after the other is the same as running their concatenation. After a failure, no later child runs. |
| `Filters.ApplyChildren` | src/EloquentStrategy.php:75-88 | The `foreach` loop appends each child's calls in order. AND appends them directly, OR inside one `orWhere` scope. It stops at the first error and returns it. |
| `Strategy.EloquentStrategy.MakeGroupBoundFilter` | src/EloquentStrategy.php:24-29 | The group filter targets the strategy's model. Applying it appends one nested `where` scope holding all the children's calls, or fails with the first child's error. |
| `Strategy.EloquentStrategy.MakeRule` | src/EloquentStrategy.php:35-48 | The rule filter targets the strategy's model. Applying it appends exactly the operation's call for the resolved attribute, or fails with the operation's error. |
| `Strategy.EloquentStrategy.MakeRelation` | src/EloquentStrategy.php:56-67 | The relation filter targets the strategy's model. The relation resolver gets the children's calls with no extra `where` scope. |
| `Properties.AndGroupAppliesChildrenInTurn` | src/EloquentStrategy.php:78-80 | An AND group's children land on its query exactly as when each child is applied on its own, one after another, in order. |
| `Properties.OrGroupIsolatesChildren` | src/EloquentStrategy.php:81-85 | An OR group holds one `orWhere` scope per child, in child order. Scope `i` holds exactly child `i`'s calls. It has a scope for every child iff no child fails, and otherwise the next child is the one that failed. |
| `Properties.EffectFailsIff` | src/EloquentStrategy.php:106-109 | Applying a filter fails iff some STARTS_WITH rule in the tree has an array value. |
| `Properties.ChildrenFailIff` | src/EloquentStrategy.php:78-86 | A group's children fail iff one of them holds STARTS_WITH on an array. |
| `Properties.EmptyGroupAndRelationHoldNoCall` | src/EloquentStrategy.php:26-27 | With no children, a group appends one empty `where` scope, and a relation records an empty related query. |
| `Properties.GroupAndRelationDifferOnlyInWrapping` | src/EloquentStrategy.php:60-64 | A group and a relation over the same children carry the same calls. The group wraps them in a `where` scope. The relation hands them unwrapped to the resolver. |
| `Properties.ThreeLevelTreeScenario` | src/EloquentStrategy.php:24-67 | The example tree `status = active AND (age > 18 OR role in [admin, owner]) AND some Order with total < 100` appends one `where` scope. The scope holds an equality, a `where` scope with two `orWhere` scopes, and one relation holding a `<` comparison. |
| `Properties.ApplyToFreshContexts` | src/EloquentBoundFilter.php:24-27 | A filter applied to two fresh queries leaves both with the same calls, because no state is kept between applications. |
| `Properties.ApplyTwice` | src/EloquentBoundFilter.php:26 | Applying a filter twice to one query appends its calls twice, with no caching or guard. An error is raised both times. |

## Left out

- Float values in the value union: values are ints, strings and arrays of them.
- PHP arrays as values are taken as sequences. Array keys are not modelled.
- The SQL meaning of `where`, `orWhere`, `whereIn` and nested scopes is not modelled. So is the builder's handling of an empty nested scope. Calls are only recorded. LIKE is modelled only to state what a STARTS_WITH pattern selects. Collation and case folding are not modelled.
- The field resolver passed to `makeRule` is external code. The model's resolver calls back once, with the rule's attribute, on the same query. Resolvers that resolve nested attribute paths, call back on another query, or call back several times are not modelled.
- The relation resolver passed to `makeRelation` is external code. The model's resolver runs the children on a fresh related query and then records `RelationScope(className, calls)`. Existence semantics (any match or all match) are not modelled. On an error the model records nothing. A resolver that records before its callback fails is not modelled.
- `MakeRule` and `MakeRelation` take all their arguments at once. The source returns a closure that takes the operation and value, or the group type and children. Only this currying is dropped.
- Model class generics (`class-string<TModel>`) are static typing only. A bound filter carries its entity name, but nothing checks that a group's children target the same model. The unused `$type` parameter of `getApplyChildrenFn` is dropped.
- LIKE is modelled as ISO SQL LIKE with no escape character. The default backslash escape of MySQL and PostgreSQL is not modelled. To stay sound on those databases, the prefix lemmas also treat `\` as special and require that the value holds none.
- Commutativity of AND is a property of SQL meaning. It is not stated, because the calls keep the caller's order, as the source does.
- The source has no concurrency, so none is modelled.
