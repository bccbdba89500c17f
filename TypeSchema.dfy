/**
 * The reflection the engine performs, as an abstract type schema: every named
 * type maps its property names to their types, and `CollectionOf(T)` stands
 * for a generic type implementing `ICollection<T>`. Also the walk along a
 * dotted property path that every builder shares, and the construction errors.
 */
module TypeSchema {
  import opened Wrappers
  import opened Values
  import opened Expressions
  import opened Queries
  import Text

  datatype Ty = Named(name: string) | CollectionOf(element: Ty)

  /** Type name to (property name to property type). */
  type Schema = map<string, map<string, Ty>>

  /** The result types of `Any`/`All` and of `Count`. */
  const Boolean: Ty := Named("Boolean")
  const Int32: Ty := Named("Int32")

  /** The failures raised while a query is being built (exception types and messages aside). */
  datatype BuildError =
    | MissingProperty(name: string, onType: Ty)
    | NotACollection(name: string, onType: Ty)
    | TokenFormat(text: string)
    | UnknownOperator(token: string)
    | MissingModelProperty(name: string)
    | UnknownMethod(name: string)

  /** `Type.GetProperty(name)`: the property's type, or nothing when the type has no such property. */
  function PropertyType(schema: Schema, t: Ty, name: string): Option<Ty> {
    if t.Named? && t.name in schema && name in schema[t.name] then Some(schema[t.name][name]) else None
  }

  /**
   * Follows `segments` one property at a time from expression `e` of type `t`:
   * each step wraps the expression in a property access and moves to the
   * property's type. Fails at the first segment the current type lacks.
   */
  function WalkProperties(schema: Schema, e: Expr, t: Ty, segments: seq<string>): (r: Result<(Expr, Ty), BuildError>)
    ensures r.Failure? ==> r.error.MissingProperty?
    decreases |segments|
  {
    if |segments| == 0 then Success((e, t))
    else match PropertyType(schema, t, segments[0])
      case None => Failure(MissingProperty(segments[0], t))
      case Some(u) => WalkProperties(schema, Property(e, segments[0]), u, segments[1..])
  }

  /** A walk fails only on a segment of the path that the type reached lacks. */
  lemma {:induction false} WalkFailure(schema: Schema, e: Expr, t: Ty, segments: seq<string>)
    ensures var r := WalkProperties(schema, e, t, segments);
      r.Failure? ==>
        && r.error.name in segments
        && PropertyType(schema, r.error.onType, r.error.name).None?
    decreases |segments|
  {
    if |segments| > 0 && PropertyType(schema, t, segments[0]).Some? {
      var u := PropertyType(schema, t, segments[0]).value;
      WalkFailure(schema, Property(e, segments[0]), u, segments[1..]);
      var r := WalkProperties(schema, Property(e, segments[0]), u, segments[1..]);
      if r.Failure? {
        assert r.error.name in segments[1..];
      }
    }
  }

  /** One step of the walk, as the builders' loops take it. */
  lemma WalkStep(schema: Schema, e: Expr, t: Ty, segments: seq<string>)
    requires |segments| > 0
    ensures WalkProperties(schema, e, t, segments) ==
      match PropertyType(schema, t, segments[0])
      case None => Failure(MissingProperty(segments[0], t))
      case Some(u) => WalkProperties(schema, Property(e, segments[0]), u, segments[1..])
  {
  }

  /** Reading a property path on a value: null or a missing field throws. */
  function Navigate(v: Value, segments: seq<string>): Option<Value>
    decreases |segments|
  {
    if |segments| == 0 then Some(v)
    else if v.Obj? && segments[0] in v.fields then Navigate(v.fields[segments[0]], segments[1..])
    else None
  }

  /**
   * The expression the walk builds reads the path: evaluating it is
   * evaluating the start expression and then navigating the segments.
   */
  lemma {:induction false} WalkEval(schema: Schema, e: Expr, t: Ty, segments: seq<string>, x: Value)
    requires WalkProperties(schema, e, t, segments).Success?
    ensures Eval(WalkProperties(schema, e, t, segments).value.0, x) ==
      match Eval(e, x) case None => None case Some(v) => Navigate(v, segments)
    decreases |segments|
  {
    if |segments| > 0 {
      var u := PropertyType(schema, t, segments[0]).value;
      WalkEval(schema, Property(e, segments[0]), u, segments[1..], x);
    }
  }

  /**
   * The key selector an `OrderBy` builder composes: the dotted path walked
   * from the entity type, ascending exactly when the direction is "asc".
   */
  function OrderByPath(schema: Schema, q: Query, root: Ty, path: string, way: string): Result<Query, BuildError> {
    var walked :- WalkProperties(schema, Parameter, root, Text.Split(path, '.'));
    Success(q.Then(OrderBy(walked.0, way == "asc")))
  }

  /** The value at the end of a path, null when reading it throws. */
  function PathKey(v: Value, segments: seq<string>): Value {
    match Navigate(v, segments)
    case Some(k) => k
    case None => Null
  }

  /** Neighbours are in key order, reading the key along the path. */
  predicate SortedOnPath(t: seq<Value>, segments: seq<string>, ascending: bool) {
    forall i :: 0 <= i < |t| - 1 ==>
      if ascending then KeyLe(PathKey(t[i], segments), PathKey(t[i + 1], segments))
      else KeyLe(PathKey(t[i + 1], segments), PathKey(t[i], segments))
  }

  /**
   * Ordering by a path that resolves yields a permutation of the input ordered
   * by the value at the end of the path, ascending iff the direction is "asc";
   * it throws when reading the path throws on some element.
   */
  lemma OrderByPathRuns(schema: Schema, q: Query, root: Ty, path: string, way: string, s: seq<Value>)
    requires OrderByPath(schema, q, root, path, way).Success?
    requires Run(q) == Some(s)
    ensures var segments := Text.Split(path, '.');
      var r := Run(OrderByPath(schema, q, root, path, way).value);
      && (r.Some? <==> forall i :: 0 <= i < |s| ==> Navigate(s[i], segments).Some?)
      && (r.Some? ==> multiset(r.value) == multiset(s) && SortedOnPath(r.value, segments, way == "asc"))
  {
    var segments := Text.Split(path, '.');
    var key := WalkProperties(schema, Parameter, root, segments).value.0;
    var ascending := way == "asc";
    forall x
      ensures Eval(key, x) == Navigate(x, segments)
      ensures KeyOf(key, x) == PathKey(x, segments)
    {
      WalkEval(schema, Parameter, root, segments, x);
    }
    RunThen(q, OrderBy(key, ascending));
    var r := Run(OrderByPath(schema, q, root, path, way).value);
    assert r == SortBy(s, key, ascending);
    if r.Some? {
      assert Sorted(r.value, key, ascending);
      forall i | 0 <= i < |r.value| - 1
        ensures if ascending then KeyLe(PathKey(r.value[i], segments), PathKey(r.value[i + 1], segments))
          else KeyLe(PathKey(r.value[i + 1], segments), PathKey(r.value[i], segments))
      {
        assert Precedes(key, ascending, r.value[i], r.value[i + 1]);
      }
    }
  }
}
