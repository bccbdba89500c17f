/**
 * `ReflectionQueryable`: the older builders. `WhereReflexion` walks a dotted
 * property path (no collection segments) and builds one of five predicates;
 * `OrderByReflexion` walks a dotted path and orders by the value at its end.
 */
module ReflectionQueryable {
  import opened Wrappers
  import opened Values
  import opened Expressions
  import opened Queries
  import opened TypeSchema
  import opened FilterAttribute
  import Text

  /** `System.DateTime`, the only type that has the `Date` property `EqualDate` reads. */
  const DateTime: Ty := Named("DateTime")

  /**
   * The switch on the operator, over the resolved property `e` of type `t`.
   * `EqualDate` reads `DateTime.Date` on the property, which fails on any
   * other type; the constant is compared as given.
   */
  function OperatorBody(e: Expr, t: Ty, value: Value, op: OperatorType): Result<Expr, BuildError> {
    match op
    case Equal => Success(Compare(Eq, e, Constant(value)))
    case EqualDate =>
      if t == DateTime then Success(Compare(Eq, DateOf(e), Constant(value)))
      else Failure(MissingProperty("Date", t))
    case LessThanOrEqual => Success(Compare(Le, e, Constant(value)))
    case GreaterThanOrEqual => Success(Compare(Ge, e, Constant(value)))
    case Contains => Success(GuardedContains(e, value))
  }

  /**
   * The predicate `WhereReflexion` composes. A segment the current type lacks
   * is reported with the whole path and the type reached.
   */
  function WherePath(schema: Schema, root: Ty, propertyName: string, value: Value, op: OperatorType)
    : Result<Expr, BuildError>
  {
    match WalkProperties(schema, Parameter, root, Text.Split(propertyName, '.'))
    case Failure(e) => Failure(MissingProperty(propertyName, e.onType))
    case Success(walked) => OperatorBody(walked.0, walked.1, value, op)
  }

  /** `WhereReflexion`: the path walk inside its `try`, then the switch, then one `Where` stage. */
  method WhereReflexion(schema: Schema, source: Query, root: Ty, propertyName: string, value: Value, optr: OperatorType)
    returns (r: Result<Query, BuildError>)
    ensures r.Failure? <==> WherePath(schema, root, propertyName, value, optr).Failure?
    ensures r.Failure? ==> r.error == WherePath(schema, root, propertyName, value, optr).error
    ensures r.Success? ==> r.value == source.Then(Where(WherePath(schema, root, propertyName, value, optr).value))
  {
    var props := Text.Split(propertyName, '.');
    var t := root;
    var whereProperty := Parameter;
    var i := 0;
    while i < |props|
      invariant 0 <= i <= |props|
      invariant WalkProperties(schema, Parameter, root, props) == WalkProperties(schema, whereProperty, t, props[i..])
    {
      var prop := props[i];
      assert props[i..][0] == prop && props[i..][1..] == props[i + 1..];
      WalkStep(schema, whereProperty, t, props[i..]);
      var info := PropertyType(schema, t, prop);
      if info.None? {
        assert WalkProperties(schema, Parameter, root, props) == Failure(MissingProperty(prop, t));
        return Failure(MissingProperty(propertyName, t));
      }
      whereProperty := Property(whereProperty, prop);
      t := info.value;
      i := i + 1;
    }
    assert props[i..] == [];
    assert WalkProperties(schema, Parameter, root, props) == Success((whereProperty, t));
    ghost var walked := whereProperty;
    assert WherePath(schema, root, propertyName, value, optr) == OperatorBody(walked, t, value, optr);
    var body: Result<Expr, BuildError>;
    match optr {
      case Equal =>
        body := Success(Compare(Eq, whereProperty, Constant(value)));
      case EqualDate =>
        if t != DateTime {
          body := Failure(MissingProperty("Date", t));
        } else {
          whereProperty := DateOf(whereProperty);
          body := Success(Compare(Eq, whereProperty, Constant(value)));
        }
      case LessThanOrEqual =>
        body := Success(Compare(Le, whereProperty, Constant(value)));
      case GreaterThanOrEqual =>
        body := Success(Compare(Ge, whereProperty, Constant(value)));
      case Contains =>
        body := Success(GuardedContains(whereProperty, value));
    }
    assert body == OperatorBody(walked, t, value, optr);
    if body.Failure? {
      return Failure(body.error);
    }
    return Success(source.Then(Where(body.value)));
  }

  /**
   * What each operator means for the value `a` at the end of the path and the
   * filter value `v`: equality on any values; `EqualDate` holds on the same
   * day, and only when the filter value is a date at midnight, since the time
   * of day is dropped on the entity side alone; the orderings on comparable
   * values; `Contains` as "not null and a substring".
   */
  function LegacySatisfies(op: OperatorType, a: Value, v: Value): Option<bool> {
    match op
    case Equal => Some(a == v)
    case EqualDate => if a.Date? then Some(v.Date? && v.time == 0 && a.day == v.day) else None
    case LessThanOrEqual => Some(Comparable(a, v) && !Less(v, a))
    case GreaterThanOrEqual => Some(Comparable(a, v) && !Less(a, v))
    case Contains => ContainsOutcome(a, v)
  }

  /**
   * The predicate holds of an entity exactly when the value at the end of the
   * path satisfies the operator against the filter value, and throws when the
   * path cannot be read.
   */
  lemma WherePathMeaning(schema: Schema, root: Ty, propertyName: string, value: Value, op: OperatorType, x: Value)
    requires WherePath(schema, root, propertyName, value, op).Success?
    ensures Eval(WherePath(schema, root, propertyName, value, op).value, x) ==
      match Navigate(x, Text.Split(propertyName, '.'))
      case None => None
      case Some(a) => Outcome(LegacySatisfies(op, a, value))
  {
    var segments := Text.Split(propertyName, '.');
    var walked := WalkProperties(schema, Parameter, root, segments).value;
    WalkEval(schema, Parameter, root, segments, x);
    assert Eval(walked.0, x) == Navigate(x, segments);
    match op {
      case Contains =>
        GuardedContainsMeaning(walked.0, value, x);
      case EqualDate =>
        if Navigate(x, segments).Some? {
          var a := Navigate(x, segments).value;
          if a.Date? {
            assert Eval(DateOf(walked.0), x) == Some(DatePart(a));
          }
        }
      case _ =>
    }
  }

  /**
   * The build fails exactly when a segment of the path is missing, reported
   * with the whole path and a type that lacks one of its segments, or when
   * `EqualDate` is asked of a property that is not a `DateTime`.
   */
  lemma WherePathFailure(schema: Schema, root: Ty, propertyName: string, value: Value, op: OperatorType)
    ensures var segments := Text.Split(propertyName, '.');
      var walk := WalkProperties(schema, Parameter, root, segments);
      var r := WherePath(schema, root, propertyName, value, op);
      && (r.Failure? <==> walk.Failure? || (op == EqualDate && walk.value.1 != DateTime))
      && (walk.Failure? ==>
            && r.error.MissingProperty? && r.error.name == propertyName
            && exists k :: 0 <= k < |segments| && PropertyType(schema, r.error.onType, segments[k]).None?)
  {
    var segments := Text.Split(propertyName, '.');
    var walk := WalkProperties(schema, Parameter, root, segments);
    WalkFailure(schema, Parameter, root, segments);
    if walk.Failure? {
      var k :| 0 <= k < |segments| && segments[k] == walk.error.name;
      assert PropertyType(schema, WherePath(schema, root, propertyName, value, op).error.onType, segments[k]).None?;
    }
  }

  /**
   * `EqualDate` ignores the time of day of the entity's date: two entities
   * whose paths end on dates of the same day are kept or dropped together.
   */
  lemma EqualDateIgnoresTime(schema: Schema, root: Ty, propertyName: string, value: Value, x: Value, y: Value)
    requires WherePath(schema, root, propertyName, value, EqualDate).Success?
    requires var segments := Text.Split(propertyName, '.');
      && Navigate(x, segments).Some? && Navigate(x, segments).value.Date?
      && Navigate(y, segments).Some? && Navigate(y, segments).value.Date?
      && Navigate(x, segments).value.day == Navigate(y, segments).value.day
    ensures var p := WherePath(schema, root, propertyName, value, EqualDate).value;
      Eval(p, x) == Eval(p, y)
  {
    WherePathMeaning(schema, root, propertyName, value, EqualDate, x);
    WherePathMeaning(schema, root, propertyName, value, EqualDate, y);
  }

  /** A filter date with a time of day never matches: the constant side is not truncated. */
  lemma EqualDateWithTimeNeverHolds(schema: Schema, root: Ty, propertyName: string, value: Value, x: Value)
    requires WherePath(schema, root, propertyName, value, EqualDate).Success?
    requires value.Date? && value.time != 0
    ensures Eval(WherePath(schema, root, propertyName, value, EqualDate).value, x) != Some(Bool(true))
  {
    WherePathMeaning(schema, root, propertyName, value, EqualDate, x);
  }

  /** `OrderByReflexion`: walks the dotted path, then orders ascending iff the direction is "asc". */
  method OrderByReflexion(schema: Schema, source: Query, root: Ty, propertyName: string, way: string)
    returns (r: Result<Query, BuildError>)
    ensures r == OrderByPath(schema, source, root, propertyName, way)
  {
    var props := Text.Split(propertyName, '.');
    var t := root;
    var orderByProperty := Parameter;
    var i := 0;
    while i < |props|
      invariant 0 <= i <= |props|
      invariant WalkProperties(schema, Parameter, root, props) == WalkProperties(schema, orderByProperty, t, props[i..])
    {
      var prop := props[i];
      assert props[i..][0] == prop && props[i..][1..] == props[i + 1..];
      WalkStep(schema, orderByProperty, t, props[i..]);
      var info := PropertyType(schema, t, prop);
      if info.None? {
        return Failure(MissingProperty(prop, t));
      }
      orderByProperty := Property(orderByProperty, prop);
      t := info.value;
      i := i + 1;
    }
    assert props[i..] == [];
    return Success(source.Then(OrderBy(orderByProperty, way == "asc")));
  }
}
