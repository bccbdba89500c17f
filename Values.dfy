/**
 * Abstract runtime values of entity and model properties, with the comparison
 * semantics of the C# operators the engine emits (`Expression.Equal`,
 * `Expression.GreaterThan`, ...) and the key order that `OrderBy` uses.
 */
module Values {

  /** Ticks (100 ns) in one day: a `DateTime` is a day number and a time of day in ticks. */
  const TicksPerDay: int := 864_000_000_000

  type TimeOfDay = t: int | 0 <= t < TicksPerDay

  datatype Value =
    | Null
    | Bool(b: bool)
    | Int(i: int)
    | Str(s: string)
    | Date(day: int, time: TimeOfDay)
    | Obj(fields: map<string, Value>)
    | Items(elements: seq<Value>)

  /** `DateTime.Date`: the same day at midnight. */
  function DatePart(d: Value): (r: Value)
    requires d.Date?
    ensures r.Date? && r.day == d.day && r.time == 0
  {
    Date(d.day, 0)
  }

  /** The comparison nodes of an expression tree: `==`, `!=`, `>`, `<`, `<=`, `>=`. */
  datatype Comparison = Eq | Ne | Gt | Lt | Le | Ge

  /** Two non-null values the ordered operators can compare: numbers with numbers, dates with dates. */
  predicate Comparable(a: Value, b: Value) {
    (a.Int? && b.Int?) || (a.Date? && b.Date?)
  }

  /** Strictly smaller, for comparable values: numeric order, or the order of the ticks. */
  predicate Less(a: Value, b: Value)
    requires Comparable(a, b)
  {
    if a.Int? then a.i < b.i
    else a.day < b.day || (a.day == b.day && a.time < b.time)
  }

  /**
   * The lifted (nullable-aware) C# comparison operators: `==` and `!=` compare
   * null as an ordinary value, the four ordered operators are false as soon as
   * either side is null or the two sides are not comparable.
   */
  predicate Compares(op: Comparison, a: Value, b: Value) {
    match op
    case Eq => a == b
    case Ne => a != b
    case Gt => Comparable(a, b) && Less(b, a)
    case Lt => Comparable(a, b) && Less(a, b)
    case Le => Comparable(a, b) && !Less(b, a)
    case Ge => Comparable(a, b) && !Less(a, b)
  }

  // ---------------------------------------------------------------------------
  // The key order used by OrderBy / OrderByDescending (Comparer<T>.Default).

  /** Values of different kinds never meet as keys of one path; they are ranked by kind. */
  function KindRank(v: Value): nat {
    match v
    case Null => 0
    case Bool(_) => 1
    case Int(_) => 2
    case Str(_) => 3
    case Date(_, _) => 4
    case Obj(_) => 5
    case Items(_) => 6
  }

  /** Ordinal string order: lexicographic on character codes, a prefix first. */
  predicate StrLe(x: string, y: string) {
    |x| == 0 || (|y| > 0 && (x[0] < y[0] || (x[0] == y[0] && StrLe(x[1..], y[1..]))))
  }

  /** `Comparer<T>.Default` as a total preorder: null first, then the natural order of each kind. */
  predicate KeyLe(a: Value, b: Value) {
    if KindRank(a) != KindRank(b) then KindRank(a) < KindRank(b)
    else match a
      case Bool(x) => !x || b.b
      case Int(x) => x <= b.i
      case Str(x) => StrLe(x, b.s)
      case Date(_, _) => !Less(b, a)
      case _ => true
  }

  lemma {:induction false} StrLeTotal(x: string, y: string)
    ensures StrLe(x, y) || StrLe(y, x)
  {
    if |x| > 0 && |y| > 0 && x[0] == y[0] {
      StrLeTotal(x[1..], y[1..]);
    }
  }

  lemma {:induction false} StrLeTransitive(x: string, y: string, z: string)
    requires StrLe(x, y) && StrLe(y, z)
    ensures StrLe(x, z)
  {
    if |x| > 0 && |y| > 0 && |z| > 0 && x[0] == y[0] == z[0] {
      StrLeTransitive(x[1..], y[1..], z[1..]);
    }
  }

  /** Any two keys are ordered one way or the other. */
  lemma KeyLeTotal(a: Value, b: Value)
    ensures KeyLe(a, b) || KeyLe(b, a)
  {
    if a.Str? && b.Str? {
      StrLeTotal(a.s, b.s);
    }
  }

  lemma KeyLeTransitive(a: Value, b: Value, c: Value)
    requires KeyLe(a, b) && KeyLe(b, c)
    ensures KeyLe(a, c)
  {
    if a.Str? && b.Str? && c.Str? {
      StrLeTransitive(a.s, b.s, c.s);
    }
  }
}
