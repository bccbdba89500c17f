/**
 * The expression trees the engine builds (the `System.Linq.Expressions` nodes
 * it uses) and their evaluation on one entity, the way the compiled lambda
 * runs. `None` is an exception thrown while the lambda runs: a member access
 * on null, `string.Contains` on null, `First` with no matching element.
 */
module Expressions {
  import opened Wrappers
  import opened Values
  import Text

  /** The `Enumerable` methods a collection segment may name (a closed set). */
  datatype Quantifier = Any | All | Count | First | FirstOrDefault

  datatype Expr =
    | Parameter                                           // the lambda's parameter
    | Constant(value: Value)                              // Expression.Constant
    | Property(target: Expr, name: string)                // Expression.Property
    | DateOf(target: Expr)                                // the `DateTime.Date` property
    | Compare(op: Comparison, left: Expr, right: Expr)    // Expression.Equal, NotEqual, ...
    | AndAlso(left: Expr, right: Expr)                    // Expression.AndAlso (short-circuit)
    | StringContains(target: Expr, argument: Expr)        // a call of string.Contains(string)
    | Call(quantifier: Quantifier, source: Expr, test: Expr)  // Enumerable.Q(source, x => test)

  /** Runs `e` with its parameter bound to `x`; a nested `Call` rebinds the parameter to each element. */
  function Eval(e: Expr, x: Value): Option<Value>
    decreases e, 0
  {
    match e
    case Parameter => Some(x)
    case Constant(v) => Some(v)
    case Property(target, name) =>
      var o :- Eval(target, x);
      if o.Obj? && name in o.fields then Some(o.fields[name]) else None
    case DateOf(target) =>
      var d :- Eval(target, x);
      if d.Date? then Some(DatePart(d)) else None
    case Compare(op, left, right) =>
      var a :- Eval(left, x);
      var b :- Eval(right, x);
      Some(Bool(Compares(op, a, b)))
    case AndAlso(left, right) =>
      var a :- Eval(left, x);
      if a == Bool(true) then Eval(right, x)
      else if a == Bool(false) then Some(Bool(false))
      else None
    case StringContains(target, argument) =>
      var s :- Eval(target, x);
      var v :- Eval(argument, x);
      if s.Str? && v.Str? then Some(Bool(Text.Contains(s.s, v.s))) else None
    case Call(quantifier, source, test) =>
      var c :- Eval(source, x);
      if !c.Items? then None
      else match quantifier
        case Any =>
          var m :- FirstMatch(test, c.elements, true);
          Some(Bool(m.Some?))
        case All =>
          var m :- FirstMatch(test, c.elements, false);
          Some(Bool(m.None?))
        case First =>
          var m :- FirstMatch(test, c.elements, true);
          m
        case FirstOrDefault =>
          var m :- FirstMatch(test, c.elements, true);
          Some(if m.Some? then m.value else Null)
        case Count =>
          var n :- CountMatches(test, c.elements);
          Some(Int(n))
  }

  /** The scan `Any`, `All`, `First` and `FirstOrDefault` perform, with `p` as the lambda. */
  function FirstMatch(p: Expr, xs: seq<Value>, want: bool): Option<Option<Value>>
    decreases p, 1
  {
    Find(xs, x => Eval(p, x), want)
  }

  /**
   * Scans `xs` in order for the first element on which `verdict` yields `want`;
   * `Some(None)` when there is none, `None` when the verdict is a throw or a
   * non-boolean before that. As with LINQ, the elements after the first match
   * do not affect the outcome.
   */
  function Find(xs: seq<Value>, verdict: Value -> Option<Value>, want: bool): Option<Option<Value>>
  {
    if |xs| == 0 then Some(None) else Scan(xs[0], verdict(xs[0]), want, Find(xs[1..], verdict, want))
  }

  /** One step of the scan: stop at `x` on `want`, go on past `!want`; any other outcome throws. */
  function Scan(x: Value, verdict: Option<Value>, want: bool, rest: Option<Option<Value>>): Option<Option<Value>> {
    if verdict == Some(Bool(want)) then Some(Some(x))
    else if verdict == Some(Bool(!want)) then rest
    else None
  }

  /** How many elements satisfy `p`; every element is tested. */
  function CountMatches(p: Expr, xs: seq<Value>): Option<nat>
    decreases p, |xs|
  {
    if |xs| == 0 then Some(0) else Tally(Eval(p, xs[0]), CountMatches(p, xs[1..]))
  }

  /** One step of the count: one more on true, none on false; any other outcome throws. */
  function Tally(verdict: Option<Value>, rest: Option<nat>): Option<nat> {
    if rest.None? then None
    else if verdict == Some(Bool(true)) then Some(rest.value + 1)
    else if verdict == Some(Bool(false)) then rest
    else None
  }

  /** `p` evaluates to true on `x`. */
  predicate Holds(p: Expr, x: Value) {
    Eval(p, x) == Some(Bool(true))
  }

  /** `p` evaluates to a boolean on `x`, without throwing. */
  predicate Decides(p: Expr, x: Value) {
    Eval(p, x) == Some(Bool(true)) || Eval(p, x) == Some(Bool(false))
  }

  /**
   * When `p` decides every element, the scan finds exactly the first element
   * on which `p` yields `want`, and finds nothing when there is none.
   */
  lemma FirstMatchFinds(p: Expr, xs: seq<Value>, want: bool)
    requires forall i :: 0 <= i < |xs| ==> Decides(p, xs[i])
    ensures FirstMatch(p, xs, want).Some?
    ensures FirstMatch(p, xs, want).value.None? <==>
      forall i :: 0 <= i < |xs| ==> Eval(p, xs[i]) != Some(Bool(want))
    ensures FirstMatch(p, xs, want).value.Some? ==>
      exists k :: 0 <= k < |xs| && FirstMatch(p, xs, want).value.value == xs[k]
        && Eval(p, xs[k]) == Some(Bool(want))
        && forall i :: 0 <= i < k ==> Eval(p, xs[i]) == Some(Bool(!want))
  {
    var verdict := x => Eval(p, x);
    assert forall i :: 0 <= i < |xs| ==> verdict(xs[i]) == Eval(p, xs[i]);
    FindFinds(xs, verdict, want);
  }

  /** The scan finds the first element whose verdict is `want`, when every verdict is a boolean. */
  lemma {:induction false} FindFinds(xs: seq<Value>, verdict: Value -> Option<Value>, want: bool)
    requires forall i :: 0 <= i < |xs| ==> verdict(xs[i]) == Some(Bool(true)) || verdict(xs[i]) == Some(Bool(false))
    ensures Find(xs, verdict, want).Some?
    ensures Find(xs, verdict, want).value.None? <==>
      forall i :: 0 <= i < |xs| ==> verdict(xs[i]) != Some(Bool(want))
    ensures Find(xs, verdict, want).value.Some? ==>
      exists k :: 0 <= k < |xs| && Find(xs, verdict, want).value.value == xs[k]
        && verdict(xs[k]) == Some(Bool(want))
        && forall i :: 0 <= i < k ==> verdict(xs[i]) == Some(Bool(!want))
    decreases |xs|
  {
    if |xs| > 0 && verdict(xs[0]) != Some(Bool(want)) {
      var rest := xs[1..];
      assert forall i :: 0 <= i < |rest| ==> rest[i] == xs[i + 1];
      FindFinds(rest, verdict, want);
      assert verdict(xs[0]) == Some(Bool(!want));
      assert Find(xs, verdict, want) == Find(rest, verdict, want);
      if Find(rest, verdict, want).value.Some? {
        var k :| 0 <= k < |rest| && Find(rest, verdict, want).value.value == rest[k]
          && verdict(rest[k]) == Some(Bool(want))
          && forall i :: 0 <= i < k ==> verdict(rest[i]) == Some(Bool(!want));
        assert xs[k + 1] == rest[k];
        assert forall i :: 0 <= i < k + 1 ==> verdict(xs[i]) == Some(Bool(!want));
      }
    } else if |xs| > 0 {
      assert Find(xs, verdict, want) == Some(Some(xs[0]));
    }
  }

  /**
   * `Any(source, p)` on a collection whose elements `p` decides: true exactly
   * when some element satisfies `p`.
   */
  lemma AnyMeaning(source: Expr, p: Expr, x: Value, xs: seq<Value>)
    requires Eval(source, x) == Some(Items(xs))
    requires forall i :: 0 <= i < |xs| ==> Decides(p, xs[i])
    ensures Eval(Call(Any, source, p), x) == Some(Bool(exists i :: 0 <= i < |xs| && Holds(p, xs[i])))
  {
    FirstMatchFinds(p, xs, true);
  }

  /**
   * `All(source, p)` on a collection whose elements `p` decides: true exactly
   * when every element satisfies `p`.
   */
  lemma AllMeaning(source: Expr, p: Expr, x: Value, xs: seq<Value>)
    requires Eval(source, x) == Some(Items(xs))
    requires forall i :: 0 <= i < |xs| ==> Decides(p, xs[i])
    ensures Eval(Call(All, source, p), x) == Some(Bool(forall i :: 0 <= i < |xs| ==> Holds(p, xs[i])))
  {
    FirstMatchFinds(p, xs, false);
  }

  /**
   * `First(source, p)` yields the first element satisfying `p` and throws when
   * there is none; `FirstOrDefault` yields null instead.
   */
  lemma FirstMeaning(source: Expr, p: Expr, x: Value, xs: seq<Value>)
    requires Eval(source, x) == Some(Items(xs))
    requires forall i :: 0 <= i < |xs| ==> Decides(p, xs[i])
    ensures Eval(Call(First, source, p), x).None? <==> forall i :: 0 <= i < |xs| ==> !Holds(p, xs[i])
    ensures Eval(Call(FirstOrDefault, source, p), x) ==
      if forall i :: 0 <= i < |xs| ==> !Holds(p, xs[i]) then Some(Null) else Eval(Call(First, source, p), x)
    ensures Eval(Call(First, source, p), x).Some? ==>
      exists k :: 0 <= k < |xs| && Eval(Call(First, source, p), x) == Some(xs[k]) && Holds(p, xs[k])
        && forall i :: 0 <= i < k ==> !Holds(p, xs[i])
  {
    FirstMatchFinds(p, xs, true);
    var m := FirstMatch(p, xs, true).value;
    assert Eval(Call(First, source, p), x) == m;
    assert Eval(Call(FirstOrDefault, source, p), x) == Some(if m.Some? then m.value else Null);
  }

  /** A comparison with a constant evaluates to the comparison of the value read, and throws when reading throws. */
  lemma CompareMeaning(op: Comparison, e: Expr, v: Value, x: Value)
    ensures Eval(Compare(op, e, Constant(v)), x) ==
      match Eval(e, x)
      case None => None
      case Some(a) => Some(Bool(Compares(op, a, v)))
  {
    assert Eval(Constant(v), x) == Some(v);
  }

  // ---------------------------------------------------------------------------
  // The null-guarded substring test both `Contains` operators build

  /** `e != null && e.Contains(v)`: the null test first, the `string.Contains` call second. */
  function GuardedContains(e: Expr, v: Value): Expr {
    AndAlso(Compare(Ne, e, Constant(Null)), StringContains(e, Constant(v)))
  }

  /**
   * What the guarded test means for a property value `a`: false on null, the
   * substring test on strings, and `None` (a throw) on any other value.
   */
  function ContainsOutcome(a: Value, v: Value): Option<bool> {
    if a.Null? then Some(false)
    else if a.Str? && v.Str? then Some(Text.Contains(a.s, v.s))
    else None
  }

  /** A boolean outcome as the value a predicate evaluates to. */
  function Outcome(b: Option<bool>): Option<Value> {
    match b
    case None => None
    case Some(t) => Some(Bool(t))
  }

  /**
   * The guarded test evaluates to what `ContainsOutcome` says of the property
   * value, and throws when reading the property throws.
   */
  lemma GuardedContainsMeaning(e: Expr, v: Value, x: Value)
    ensures Eval(GuardedContains(e, v), x) ==
      match Eval(e, x)
      case None => None
      case Some(a) => Outcome(ContainsOutcome(a, v))
  {
    var guard := Compare(Ne, e, Constant(Null));
    var call := StringContains(e, Constant(v));
    CompareMeaning(Ne, e, Null, x);
    ContainsCallMeaning(e, v, x);
    AndAlsoMeaning(guard, call, x);
  }

  /** The `string.Contains` call with a constant argument, on what `e` reads. */
  lemma ContainsCallMeaning(e: Expr, v: Value, x: Value)
    ensures Eval(StringContains(e, Constant(v)), x) ==
      match Eval(e, x)
      case None => None
      case Some(a) => if a.Str? && v.Str? then Some(Bool(Text.Contains(a.s, v.s))) else None
  {
    assert Eval(Constant(v), x) == Some(v);
  }

  /** `AndAlso` short-circuits: the right operand is read only after the left one yields true. */
  lemma AndAlsoMeaning(left: Expr, right: Expr, x: Value)
    ensures Eval(AndAlso(left, right), x) ==
      match Eval(left, x)
      case None => None
      case Some(a) => if a == Bool(true) then Eval(right, x) else if a == Bool(false) then Some(Bool(false)) else None
  {
  }
}
