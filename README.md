# EntityFilter, modelled in Dafny

EntityFilter builds LINQ queries from a caller's *filter model*. Each public
property of the model that has a value and carries a filter annotation
(`EntityFilterAttribute`, or the older `FilterWhereAttribute`) adds one
`Where` stage to an `IQueryable`. The stage compares the entity property named
by the annotation's dotted path (`Customer.Id`) with the model value, using the
annotation's operator. Path segments may also be *collection clauses* written
`[Orders | Any | Status == ModelStatus]`. These become a call of an
`Enumerable` method whose lambda compares a field of each element with another
property of the model. Companion builders order a query by a dotted path
(`OrderByExpressionBuilder`, `OrderByReflexion`) and paginate it
(`ApplyPagination`).

The model has these parts:

- `Values`: the runtime values, with the lifted C# comparison operators.
- `Expressions`: the expression trees the builders emit, and their evaluation on one entity (`Eval`). `None` stands for an exception thrown while the lambda runs.
- `Queries`: a deferred query handle (`Query`), a source plus pending `Where`, `OrderBy`, `Skip` and `Take` stages. `Run` gives each stage the result of LINQ to Objects, but runs the stages eagerly, one after the other, over whole sequences (see `Queries.Run` under "## Left out").
- `TypeSchema`: the reflection the builders perform, as a schema from type names to property types, plus the typed walk along a dotted path. Construction failures are `Failure(BuildError)`.
- `Text`: the .NET string operations the parsers use (`Split`, `Trim`, `Trim('[', ']')`, `Contains`, `IsNullOrWhiteSpace`).
- `ExpressionBuilder`: the operator semantics, the tokenizer and operator table of the collection language, path resolution, and the two builders of `ExpressionBuilderExtension`.
- `FilterModel`: the filter model seen through reflection, and the fold both drivers perform.
- `EntityFilterExtension` and `GenericFilterExtension`: the two drivers.
- `ReflectionQueryable`: the older `WhereReflexion` and `OrderByReflexion`.
- `Pagination`: `ApplyPagination`, with and without 32-bit wrap-around.
- `Examples`: the equality the repository's unit test `FilterOnCustomerId` intends, as a lemma on values (see `Examples.FilterOnCustomerId` under "## Left out").

The imperative loops of the source are methods with loop invariants:

- the drivers' `foreach` over the properties;
- the path walks of the four builders;
- the step-by-step checks of `ParseCollectionToExpression`.

Each method is proved equal to a specification function. The lemmas about those functions state what the built query does when it runs.

Two behaviours of the code are worth stating, and the model follows the code in both:

- `EqualDate` is documented as "an Equal expression on the property DateTime.Date" (`src/FilterAttribute.cs:28-30`). The code reads `Date` on the entity's property only (`ReflectionQueryable.cs:92-93`) and compares it with the filter value as given (`ReflectionQueryable.cs:94`). A filter value that carries a time of day therefore never matches.
- The ordering builders order ascending only when the direction is exactly `"asc"` (`ExpressionBuilderExtension.cs:62`, `ReflectionQueryable.cs:44`), as the comment at `ExpressionBuilderExtension.cs:25` says. Any other text orders descending, although the parameter is described as an "ascending or descending direction" (`ExpressionBuilderExtension.cs:30`, `ReflectionQueryable.cs:24`).

## Model

| member | source | states |
|---|---|---|
| Text.SplitCount | src/EntityFilter/EntityFilter/ExpressionBuilderExtension.cs:124 | `Split` on a separator yields one more piece than the text has separators. |
| Text.JoinSplit | src/EntityFilter/EntityFilter/ExpressionBuilderExtension.cs:124 | Joining the pieces with the separator gives back the text, so no character is lost or invented by the split. |
| Text.SplitJoin | src/EntityFilter/EntityFilter/ExpressionBuilderExtension.cs:124 | Splitting a joined list of separator-free pieces gives the pieces back: the split is the inverse of the join. |
| Text.TrimBothSpec | src/EntityFilter/EntityFilter/ExpressionBuilderExtension.cs:171 | Trimming keeps exactly the infix between the first and last kept character; everything cut off at either end is droppable (white space for `Trim()`, brackets for `Trim('[', ']')`). |
| Text.TrimPadded | src/EntityFilter/EntityFilter/ExpressionBuilderExtension.cs:175 | `Trim()` of a word padded with white space on either side is the word. |
| Values.KeyLeTotal | src/EntityFilter/EntityFilter/ExpressionBuilderExtension.cs:62-67 | Any two ordering keys are comparable one way or the other, so `OrderBy` has a total order to sort by. |
| Values.KeyLeTransitive | src/EntityFilter/EntityFilter/ExpressionBuilderExtension.cs:62-67 | The key order used by `OrderBy` is transitive. |
| Expressions.FirstMatchFinds | src/EntityFilter/EntityFilter/ExpressionBuilderExtension.cs:280-285 | When the lambda decides every element, the scan behind `Any`/`All`/`First` finds exactly the first element with the wanted verdict, or reports that none has it. |
| Expressions.FindFinds | src/EntityFilter/EntityFilter/ExpressionBuilderExtension.cs:280-285 | The same statement for a scan over an arbitrary verdict function, by induction over the elements. |
| Expressions.AnyMeaning | src/EntityFilter/EntityFilter/ExpressionBuilderExtension.cs:280-285 | `Any(c, p)` is true exactly when some element of `c` satisfies `p`. |
| Expressions.AllMeaning | src/EntityFilter/EntityFilter/ExpressionBuilderExtension.cs:280-285 | `All(c, p)` is true exactly when every element of `c` satisfies `p`. |
| Expressions.FirstMeaning | src/EntityFilter/EntityFilter/ExpressionBuilderExtension.cs:280-285 | `First(c, p)` throws exactly when no element satisfies `p` and otherwise yields the first that does; `FirstOrDefault` yields null instead of throwing. |
| Expressions.GuardedContainsMeaning | src/EntityFilter/EntityFilter/ExpressionBuilderExtension.cs:321-327 | The null-guarded `Contains` node is false on null, the ordinal substring test on a string, and throws on any other value or when reading the property throws. |
| Queries.RunThen | src/EntityFilter/EntityFilter/ExpressionBuilderExtension.cs:104-107 | Composing a stage onto a handle and running it is running the handle, then applying the stage; a throw upstream propagates. |
| Queries.RunTwoStages | src/EntityFilter/EntityFilterTest/UnitTest.cs:16 | A handle with two stages runs the first stage on the source, then the second on its result. |
| Queries.CountMatchesFilter | src/EntityFilter/EntityFilter/ExpressionBuilderExtension.cs:280-285 | `Count(c, p)` throws exactly when `Where(c, p)` throws, and otherwise equals the number of elements `Where` keeps, by induction over the elements. |
| Queries.CountMeaning | src/EntityFilter/EntityFilter/ExpressionBuilderExtension.cs:280-285 | The `Count` call on a collection evaluates to the number of elements satisfying the lambda (those `Where` keeps, with multiplicity), or throws when the lambda does not decide some element. |
| Queries.FilterDefined | src/EntityFilter/EntityFilter/ExpressionBuilderExtension.cs:104-107 | Running a `Where` stage throws exactly when its condition fails to evaluate to a boolean on some element. |
| Queries.FilterKeeps | src/EntityFilter/EntityFilter/ExpressionBuilderExtension.cs:104-107 | `Where` keeps, in source order, exactly the elements on which the condition holds, each with its multiplicity in the source. |
| Queries.FilterAndAlso | src/EntityFilter/EntityFilter/EntityFilterExtension.cs:22-40 | Two successive `Where` stages behave as one stage on their short-circuit conjunction, exceptions included. |
| Queries.FilterAgrees | src/EntityFilter/EntityFilter/ExpressionBuilderExtension.cs:104-107 | Conditions that evaluate alike on every element filter alike. |
| Queries.ConjHolds | src/EntityFilter/EntityFilter/EntityFilterExtension.cs:22-40 | The conjunction of the stages' conditions holds exactly when each condition holds. |
| Queries.RunWheres | src/EntityFilter/EntityFilter/EntityFilterExtension.cs:22-40 | One `Where` stage per condition filters what the handle yields by the conjunction of the conditions; no condition leaves it unchanged. |
| Queries.InsertSorted | src/EntityFilter/EntityFilter/ExpressionBuilderExtension.cs:62-67 | Inserting an element into a sequence sorted by key keeps it sorted. |
| Queries.InsertionSort | src/EntityFilter/EntityFilter/ExpressionBuilderExtension.cs:62-67 | The insertion sort yields a permutation of its input ordered by key in the requested direction. |
| Queries.SortBy | src/EntityFilter/EntityFilter/ExpressionBuilderExtension.cs:62-67 | `OrderBy`/`OrderByDescending` throws exactly when the key throws on some element; otherwise it yields a permutation of the input sorted by key. |
| TypeSchema.WalkFailure | src/EntityFilter/EntityFilter/ExpressionBuilderExtension.cs:44-56 | Walking a dotted path fails only on a segment of that path that the type reached lacks. |
| TypeSchema.WalkEval | ReflectionQueryable.cs:65-82 | The expression the walk builds reads the path: evaluating it is navigating the entity's properties segment by segment, throwing on null or a missing field. |
| TypeSchema.OrderByPathRuns | src/EntityFilter/EntityFilter/ExpressionBuilderExtension.cs:32-69 | Ordering by a resolvable path yields a permutation of the input sorted by the value at the end of the path, ascending iff the direction is `"asc"`; it throws when the path cannot be read on some element. |
| FilterModel.TargetPath | src/EntityFilter/EntityFilter/EntityFilterExtension.cs:36 | The filtered path is the annotation's `OnProperty` when that is neither null nor empty, and the property's own name otherwise. |
| FilterModel.FindValue | src/EntityFilter/EntityFilter/ExpressionBuilderExtension.cs:263-269 | A model property is found by name exactly when the model has a property of that name. |
| FilterModel.FindValueFirst | src/EntityFilter/EntityFilter/ExpressionBuilderExtension.cs:263-269 | The value found belongs to the first property of that name, in the order reflection lists the properties. |
| FilterModel.SelectedOfMembers | src/EntityFilter/EntityFilter/EntityFilterExtension.cs:24-34 | The properties that contribute a filter are exactly the public ones with a non-blank value and an annotation. |
| FilterModel.ConditionsMeaning | src/EntityFilter/EntityFilter/EntityFilterExtension.cs:22-40 | One condition is built per selected property, in order; building fails exactly when some property's condition fails, and the error is the first such property's. |
| FilterModel.ConjoinStages | src/EntityFilter/EntityFilter/EntityFilterExtension.cs:22-42 | The drivers' fold appends exactly one `Where` stage per selected property, in the order reflection lists the properties, to the untouched handle, or fails with the first condition that cannot be built. |
| FilterModel.ConjoinNothingSelected | src/EntityFilter/EntityFilter/EntityFilterExtension.cs:42 | With no property selected the handle is returned unchanged. |
| FilterModel.ConjoinFilters | src/EntityFilter/EntityFilter/EntityFilterExtension.cs:22-42 | Running the composed handle keeps, in source order and with their multiplicity, exactly the entities on which every selected property's condition holds, and throws exactly when, on some entity, a condition fails to evaluate to a boolean while every earlier condition held (the stages act as a short-circuit conjunction). |
| ExpressionBuilder.ApplyOperatorType | src/EntityFilter/EntityFilter/ExpressionBuilderExtension.cs:304-331 | Builds the node for each of the seven operators around the property expression; what the node evaluates to is stated by `ApplyOperatorMeaning` (no contract of its own). |
| ExpressionBuilder.IsCollectionProperty | src/EntityFilter/EntityFilter/ExpressionBuilderExtension.cs:159-162 | A segment is a collection clause exactly when it starts with `[` and ends with `]`; `TokenizeRender` and `DottedClauseBreaks` state its consequences (no contract of its own). |
| ExpressionBuilder.ApplyOperatorMeaning | src/EntityFilter/EntityFilter/ExpressionBuilderExtension.cs:304-331 | The node built for each operator evaluates to the operator's meaning on the property value: equality on any values, the orderings on comparable values only, `Contains` as "not null and a substring"; it throws when reading the property throws. |
| ExpressionBuilder.ComparisonOperatorMeaning | src/EntityFilter/EntityFilter/ExpressionBuilderExtension.cs:309-320 | Every operator but `Contains` evaluates to its comparison of the property value with the constant. |
| ExpressionBuilder.OperatorMatcher | src/EntityFilter/EntityFilter/ExpressionBuilderExtension.cs:194-215 | A symbol is accepted exactly when it is one of `==`, `>=`, `<=`, `!=`; any other token fails with an error naming it. |
| ExpressionBuilder.OperatorMatcherInverse | src/EntityFilter/EntityFilter/ExpressionBuilderExtension.cs:194-201 | The table is a bijection between the four symbols and their operators; `>`, `<` and `Contains` cannot be written in a clause. |
| ExpressionBuilder.Tokenize | src/EntityFilter/EntityFilter/ExpressionBuilderExtension.cs:169-191 | A clause whose bracket-trimmed text does not hold exactly two `|` is rejected with a format error. |
| ExpressionBuilder.TokenizeShape | src/EntityFilter/EntityFilter/ExpressionBuilderExtension.cs:171-183 | A successful tokenization saw exactly two bars; no token holds a bar and no comparison token holds a space. |
| ExpressionBuilder.TokenizeCountsSpaces | src/EntityFilter/EntityFilter/ExpressionBuilderExtension.cs:175-181 | The comparison part is accepted exactly when its trimmed text holds exactly two spaces. |
| ExpressionBuilder.TokenizeSpelled | src/EntityFilter/EntityFilter/ExpressionBuilderExtension.cs:169-191 | A clause spelled `[collection \| method \| comparison]` tokenizes to its collection, its method and the single-space split of its comparison, when that split has three parts. |
| ExpressionBuilder.TokenizeRender | src/EntityFilter/EntityFilter/ExpressionBuilderExtension.cs:159-191 | The canonical spelling of a well-formed clause is recognised as a collection segment and tokenizes back to the clause (round trip). |
| ExpressionBuilder.DoubledSpaceRejected | src/EntityFilter/EntityFilter/ExpressionBuilderExtension.cs:175-181 | A doubled space inside the comparison makes an empty token, so the clause is rejected. |
| ExpressionBuilder.ParseQuantifier | src/EntityFilter/EntityFilter/ExpressionBuilderExtension.cs:280-291 | A method name is accepted exactly when it is `Any`, `All`, `Count`, `First` or `FirstOrDefault`, and it selects the method of that name. |
| ExpressionBuilder.ParseCollectionToExpression | src/EntityFilter/EntityFilter/ExpressionBuilderExtension.cs:228-293 | The step-by-step checks of a collection segment compute `CollectionSegment`, whose meaning `ClauseSegmentMeaning` states. |
| ExpressionBuilder.ClauseSegmentMeaning | src/EntityFilter/EntityFilter/ExpressionBuilderExtension.cs:228-293 | A clause resolves exactly when the collection is a collection property, the field a property of its element type, the model field a model property, the symbol known and the method supported; it then calls that method on the collection with the clause's test, and its type is the element type for `First`/`FirstOrDefault`. |
| ExpressionBuilder.AnyClauseMeaning | src/EntityFilter/EntityFilter/ExpressionBuilderExtension.cs:280-285 | An `Any` clause holds exactly when some element's field satisfies the operator against the model field's value. |
| ExpressionBuilder.GetNavigationPropertyExpression | src/EntityFilter/EntityFilter/ExpressionBuilderExtension.cs:120-152 | The loop over the path's segments computes `NavigationPath`: each segment resolved from the expression and type the previous one produced. |
| ExpressionBuilder.PlainPathIsWalk | src/EntityFilter/EntityFilter/ExpressionBuilderExtension.cs:137-147 | A path without collection segments resolves as the plain typed property walk. |
| ExpressionBuilder.FirstThenProperty | src/EntityFilter/EntityFilter/ExpressionBuilderExtension.cs:128-149 | After a `First` clause, `.Name` is read on the selected element: resolution continues from the element type. |
| ExpressionBuilder.DottedClauseBreaks | src/EntityFilter/EntityFilter/ExpressionBuilderExtension.cs:124-134 | A clause with a `.` inside its brackets is cut in two by the split on `.`, neither piece is a collection segment, and the path fails on the first piece. |
| ExpressionBuilder.WhereExpressionBuilder | src/EntityFilter/EntityFilter/ExpressionBuilderExtension.cs:88-108 | Fails exactly when the path cannot be resolved, with the resolution's error; otherwise appends one `Where` stage holding the operator applied to the resolved path. |
| ExpressionBuilder.PlainWhereMeaning | src/EntityFilter/EntityFilter/ExpressionBuilderExtension.cs:88-108 | On a plain path the predicate holds exactly when the value at the end of the path satisfies the operator against the filter value, and throws when the path cannot be read. |
| ExpressionBuilder.OrderByExpressionBuilder | src/EntityFilter/EntityFilter/ExpressionBuilderExtension.cs:32-69 | The path walk and direction choice compute `OrderByPath`, whose run `OrderByPathRuns` describes. |
| EntityFilterExtension.FilterFromModel | src/EntityFilter/EntityFilter/EntityFilterExtension.cs:16-43 | The driver's loop computes the fold `Conjoin` with `WhereExpressionBuilder`'s conditions, whose meaning `ConjoinStages` and `ConjoinFilters` state. |
| GenericFilterExtension.ConstructQuerySearch | src/GenericFilterExtention.cs:16-43 | The older driver's loop computes the same fold with `WhereReflexion`'s conditions. |
| ReflectionQueryable.WhereReflexion | ReflectionQueryable.cs:63-122 | Fails exactly when `WherePath` fails, with its error; otherwise appends one `Where` stage holding the predicate for the path and operator. |
| ReflectionQueryable.WherePathMeaning | ReflectionQueryable.cs:84-113 | The predicate holds exactly when the value at the end of the path satisfies the operator against the filter value (`EqualDate`: same day, filter value at midnight), and throws when the path cannot be read. |
| ReflectionQueryable.WherePathFailure | ReflectionQueryable.cs:65-95 | The build fails exactly when a segment is missing or `EqualDate` targets a non-`DateTime`; a missing segment is reported with the whole path and a type lacking one of its segments. |
| ReflectionQueryable.EqualDateIgnoresTime | ReflectionQueryable.cs:91-95 | `EqualDate` keeps or drops two entities alike when their dates fall on the same day. |
| ReflectionQueryable.EqualDateWithTimeNeverHolds | ReflectionQueryable.cs:91-95 | A filter date with a time of day never matches, because only the entity side is truncated. |
| ReflectionQueryable.OrderByReflexion | ReflectionQueryable.cs:26-49 | The older path walk and direction choice compute the same `OrderByPath`. |
| Pagination.ApplyPaginationAsWritten | src/Pagination.cs:17 | `Skip(pageSize * (page - 1)).Take(pageSize)` with the product in wrapping 32-bit arithmetic; `AsWrittenWithoutOverflow` and `PageWrapsToFirstPage` state when it agrees with the intended page and when it does not (no contract of its own). |
| Pagination.ApplyPagination | src/Pagination.cs:17 | The intended `Skip(pageSize * (page - 1)).Take(pageSize)`; `PageSlice` states that it returns the page as a slice (no contract of its own). |
| Pagination.Wrap32 | src/Pagination.cs:17 | Unchecked `int` arithmetic: the result is the 32-bit value congruent to the mathematical one modulo 2^32. |
| Pagination.PageStart | src/Pagination.cs:17 | A page starts within the sequence, at the skip count whenever that count lies inside it. |
| Pagination.SkipTakeSlice | src/Pagination.cs:17 | `Skip(n).Take(size)` yields the contiguous slice of at most `size` elements after the first `n`. |
| Pagination.PageSlice | src/Pagination.cs:17 | A page is the slice of `pageSize` elements, or fewer at the end, that starts after `pageSize * (page - 1)` elements. |
| Pagination.PageWithin | src/Pagination.cs:17 | A page never holds more than `pageSize` elements and holds only elements of the source. |
| Pagination.FirstPage | src/Pagination.cs:17 | Page 1 is the first `pageSize` elements, or all of them when there are fewer. |
| Pagination.PastTheEnd | src/Pagination.cs:17 | A page that starts at or after the end is empty. |
| Pagination.AsWrittenWithoutOverflow | src/Pagination.cs:17 | While no intermediate value leaves the `int` range, the wrapping computation returns the intended page. |
| Pagination.PageWrapsToFirstPage | src/Pagination.cs:17 | With 65536 elements per page, page 32769 wraps the skip count to `int.MinValue` and returns page 1 instead of an empty page. |
| Examples.OnlyCustomerIdSelected | src/EntityFilter/EntityFilterTest/ExampleModel.cs:12-42 | Of the example model's nine properties, with only `CustomerId`, `OrderBy` and `Way` set, only `CustomerId` contributes a filter. |
| Examples.CustomerIdCondition | src/EntityFilter/EntityFilterTest/ExampleModel.cs:36-38 | The `CustomerId` annotation on `Customer.Id` builds the condition `x.Customer.Id == 3`. |
| Examples.LinkedOrdersAsExpected | src/EntityFilter/EntityFilterTest/UnitTest.cs:16 | On orders whose `CustomerId` is their customer's `Id`, filtering on `x.Customer.Id == 3` then ordering by `Price` yields what the test's expected query yields. |
| Examples.FilterOnCustomerId | src/EntityFilter/EntityFilterTest/UnitTest.cs:14-31 | `FilterFromModel` followed by `OrderByExpressionBuilder("Price", "asc")` builds without error and, run on the same orders, yields the same sequence of values as `Where(x => x.CustomerId == 3).OrderBy(x => x.Price)`: the equality the test intends, not the reference comparison it makes. |

## Left out

- Reflection itself (`GetProperties`, `GetProperty`, `GetCustomAttributes`, `MethodInfo`, `MakeGenericMethod`, `Invoke`) is replaced by a schema from type names to property types and by a list of model properties with their values and annotations.
- Static properties returned by `GetProperties()` are not modelled. Every model property is an instance property.
- `Enumerable` methods other than `Any`, `All`, `Count`, `First` and `FirstOrDefault` are rejected as unknown. The source would also accept any other two-parameter `Enumerable` method name.
- The typing checks that `System.Linq.Expressions` performs when a node is built are not modelled: operand types of comparisons, a `Contains` call on a non-string property, the lambda's result type. Such mismatches show up only when the query runs: as `false` for the orderings, as the structural comparison for `==` and `!=` (so an `int` property against a string filter value is unequal, where `Expression.Equal` and `Expression.NotEqual` throw when the node is built), and as a throw for `Contains`.
- Exception types and messages are reduced to the kinds of `BuildError`. The `catch` at `ExpressionBuilderExtension.cs:143` and the one at line 289 catch only `ExpressionBuilderException`, which nothing inside them throws. At line 143 the `ArgumentNullException` that `Expression.Property` raises for a missing property escapes unwrapped. At line 289 the `InvalidOperationException` from `First` (no `Enumerable` method of that name) or the `ArgumentException` from `MakeGenericMethod` escapes unwrapped. The model reports these as `MissingProperty` and `UnknownMethod`.
- `ToString()` of non-string values is assumed never to be blank. `IsBlank` treats only null and white-space strings as blank.
- Floating-point values (`double Price`) are not modelled: `Value` has integers only. The example schema keeps `Price` as a property of type `Double`, but the orders in the test lemmas may hold any value there, and no arithmetic or comparison on doubles is modelled.
- String comparison is ordinal; culture-sensitive comparison is not modelled.
- `Count` returns an unbounded natural number; a count overflowing `int` is not modelled.
- The default branch of `ApplyOperatorTypeToExpression` (`Expression.Empty()`) and the default branch of `WhereReflexion`'s switch cannot be reached with a declared operator, so they are left out.
- TypeSchema.PropertyType: only named entity types have properties. A collection type has none, so a path such as `Orders.Count` (valid in C# through `ICollection<T>.Count`) fails with `MissingProperty`.
- TypeSchema.Navigate: built-in values (dates, strings, numbers) have no fields, so reading `Date.Year` or `Description.Length` throws when the query runs, where C# reads the value.
- Values.KeyLe: all object keys (`Obj`) and all collection keys (`Items`) compare as equal. `Comparer<T>.Default` instead throws when it compares keys of a type that is not `IComparable`, such as `CustomerEntity`. So ordering by such a path succeeds in the model and keeps the source order.
- Values.Compares: `==` and `!=` on objects compare their fields structurally, while `Expression.Equal` on a class without an `==` operator compares references.
- Queries.Run: stages run eagerly over the whole sequence. A `Where` condition that throws only on elements after those a later `Take` needs makes `Run` yield `None`, where LINQ to Objects returns the page without evaluating the condition on them; likewise `Take(0)` reads nothing in LINQ.
- Examples.FilterOnCustomerId: the lemma runs both queries on one sequence of orders and compares the results as values. The test as written compares references: `_repository` (`UnitTest.cs:11`) is an expression-bodied property, so `expected` and `actual` are read from two fresh `FakeRepository` instances with distinct `OrderEntity` objects, and `CollectionAssert.AreEqual` (`UnitTest.cs:31`) compares them with `object.Equals`, which `OrderEntity` does not override. With three orders of customer 3 that assertion fails; object identity is not modelled, so the model states only the equality the test evidently intends.
- Queries.SortBy: the insertion sort keeps elements with equal keys in source order, as `OrderBy` does, but no contract states this stability.
- Query providers other than LINQ to Objects (translation to SQL by an ORM) are not modelled. `Run` gives the in-memory semantics.
- `ExpressionBuilderException.cs` is not part of this model beyond the error kinds.

## Findings

| source | as written | input that shows it | evidently intended | confidence | as-written member | corrected member |
|---|---|---|---|---|---|---|
| src/Pagination.cs:17 | `pageSize * (page - 1)` is computed in unchecked 32-bit `int` arithmetic, so a large page number wraps to a negative skip count, and `Skip` of a negative count skips nothing | `pageSize = 65536`, `page = 32769`: the product is 2^31, which wraps to `int.MinValue`, so page 1 is returned instead of an empty page | skip `pageSize * (page - 1)` elements, computed without wrap-around, so a page past the end is empty | not executed | Pagination.PageWrapsToFirstPage | Pagination.PageSlice |
