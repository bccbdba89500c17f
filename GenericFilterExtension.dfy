/**
 * `GenericFilterExtention.ConstructQuerySearch`: the older driver. Same fold
 * as `FilterFromModel`, reading `FilterWhereAttribute` annotations and
 * composing each stage with `WhereReflexion`.
 */
module GenericFilterExtension {
  import opened Wrappers
  import opened Values
  import opened Queries
  import opened TypeSchema
  import opened FilterModel
  import opened FilterAttribute
  import opened ReflectionQueryable

  /** The condition composed for one selected property: the predicate `WhereReflexion` puts in its stage. */
  function LegacyCondition(schema: Schema, root: Ty): ConditionBuilder<OperatorType> {
    (path: string, v: Value, op: OperatorType) => WherePath(schema, root, path, v, op)
  }

  /** The driver's loop is the fold `Conjoin` with `WhereReflexion`'s predicates. */
  method ConstructQuerySearch(schema: Schema, source: Query, root: Ty, model: seq<ModelProperty<OperatorType>>)
    returns (r: Result<Query, BuildError>)
    ensures r == Conjoin(source, model, LegacyCondition(schema, root))
  {
    var build := LegacyCondition(schema, root);
    var q := source;
    var i := 0;
    while i < |model|
      invariant 0 <= i <= |model|
      invariant Conjoin(source, model, build) == Conjoin(q, model[i..], build)
    {
      var prop := model[i];
      assert model[i..][0] == prop && model[i..][1..] == model[i + 1..];
      if prop.isPublic && !IsBlank(prop.value) && prop.annotation.Some? {
        var propertyName := TargetPath(prop);
        var next := WhereReflexion(schema, q, root, propertyName, prop.value, prop.annotation.value.operator);
        if next.Failure? {
          return Failure(next.error);
        }
        q := next.value;
      }
      i := i + 1;
    }
    assert model[i..] == [];
    return Success(q);
  }
}
