/**
 * `EntityFilterExtention.FilterFromModel`: walks the filter model's public
 * properties in the order reflection lists them and, for each one that has a value and an
 * `EntityFilterAttribute`, composes one `Where` stage built by
 * `WhereExpressionBuilder` on the attribute's target path.
 */
module EntityFilterExtension {
  import opened Wrappers
  import opened Values
  import opened Queries
  import opened TypeSchema
  import opened FilterModel
  import opened EntityFilterAttribute
  import opened ExpressionBuilder

  /** The condition composed for one selected property: the predicate `WhereExpressionBuilder` puts in its stage. */
  function EntityCondition(schema: Schema, root: Ty, model: Model): ConditionBuilder<OperatorType> {
    (path: string, v: Value, op: OperatorType) => WherePredicate(schema, model, root, path, v, op)
  }

  /**
   * The driver's loop reassigns the accumulated handle once per selected
   * property; it is the fold `Conjoin`, whose lemmas in `FilterModel` say what
   * the composed handle keeps.
   */
  method FilterFromModel(schema: Schema, source: Query, root: Ty, model: Model)
    returns (r: Result<Query, BuildError>)
    ensures r == Conjoin(source, model, EntityCondition(schema, root, model))
  {
    var build := EntityCondition(schema, root, model);
    var q := source;
    var i := 0;
    while i < |model|
      invariant 0 <= i <= |model|
      invariant Conjoin(source, model, build) == Conjoin(q, model[i..], build)
    {
      var prop := model[i];
      assert model[i..][0] == prop && model[i..][1..] == model[i + 1..];
      if prop.isPublic && !IsBlank(prop.value) && prop.annotation.Some? {
        var propertyName := TargetPath(prop);
        var next := WhereExpressionBuilder(schema, q, root, propertyName, prop.value, model, prop.annotation.value.operator);
        if next.Failure? {
          return Failure(next.error);
        }
        q := next.value;
      }
      i := i + 1;
    }
    assert model[i..] == [];
    return Success(q);
  }
}
