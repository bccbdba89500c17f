/**
 * The query handle the engine composes onto: a source sequence with pending
 * `Where`, `OrderBy`/`OrderByDescending`, `Skip` and `Take` stages. Each stage
 * computes what the LINQ to Objects operator returns, but `Run` applies the
 * stages eagerly, one after the other, to whole sequences rather than pulling
 * elements on demand. `Run` yields `None` when a lambda throws on some element
 * it is applied to.
 */
module Queries {
  import opened Wrappers
  import opened Values
  import opened Expressions

  datatype Stage =
    | Where(condition: Expr)
    | OrderBy(key: Expr, ascending: bool)
    | Skip(count: int)
    | Take(count: int)

  datatype Query = Query(source: seq<Value>, stages: seq<Stage>) {
    /** Composes one more stage onto the handle; nothing runs yet. */
    function Then(stage: Stage): Query {
      Query(source, stages + [stage])
    }
  }

  function Run(q: Query): Option<seq<Value>> {
    RunStages(q.source, q.stages)
  }

  function RunStages(s: seq<Value>, stages: seq<Stage>): Option<seq<Value>>
    decreases |stages|
  {
    if |stages| == 0 then Some(s)
    else
      var t :- RunStages(s, stages[..|stages| - 1]);
      RunStage(t, stages[|stages| - 1])
  }

  function RunStage(s: seq<Value>, stage: Stage): Option<seq<Value>> {
    match stage
    case Where(p) => Filter(s, p)
    case OrderBy(key, ascending) => SortBy(s, key, ascending)
    case Skip(n) => Some(SkipItems(s, n))
    case Take(n) => Some(TakeItems(s, n))
  }

  /** A stage composed onto a handle runs on what the handle yields. */
  lemma RunThen(q: Query, stage: Stage)
    ensures Run(q.Then(stage)) == match Run(q) case None => None case Some(s) => RunStage(s, stage)
  {
    assert (q.stages + [stage])[..|q.stages|] == q.stages;
  }

  /** A handle with two stages runs the second on what the first yields. */
  lemma RunTwoStages(s: seq<Value>, first: Stage, second: Stage)
    ensures Run(Query(s, [first, second])) ==
      match RunStage(s, first) case None => None case Some(t) => RunStage(t, second)
  {
    var empty := Query(s, []);
    var one := empty.Then(first);
    assert one.Then(second) == Query(s, [first, second]);
    assert Run(empty) == Some(s);
    RunThen(empty, first);
    assert Run(one) == RunStage(s, first);
    RunThen(one, second);
  }

  // ---------------------------------------------------------------------------
  // Where

  /** `r` is `s` with some elements left out, the rest in their order. */
  predicate IsSubsequence(r: seq<Value>, s: seq<Value>)
    decreases |s|
  {
    && |r| <= |s|
    && (|r| == 0 || (r[0] == s[0] && IsSubsequence(r[1..], s[1..])) || IsSubsequence(r, s[1..]))
  }

  /** `Enumerable.Where`: throws unless the condition decides every element. */
  function Filter(s: seq<Value>, p: Expr): Option<seq<Value>>
  {
    if |s| == 0 then Some([]) else Keep(s[0], Eval(p, s[0]), Filter(s[1..], p))
  }

  /** One step of `Where`: `x` is kept on true, dropped on false; any other outcome throws. */
  function Keep(x: Value, verdict: Option<Value>, rest: Option<seq<Value>>): Option<seq<Value>> {
    if verdict == Some(Bool(true)) then (if rest.Some? then Some([x] + rest.value) else None)
    else if verdict == Some(Bool(false)) then rest
    else None
  }

  /** `Where` throws exactly when the condition fails to decide some element. */
  lemma {:induction false} FilterDefined(s: seq<Value>, p: Expr)
    ensures Filter(s, p).Some? <==> forall i :: 0 <= i < |s| ==> Decides(p, s[i])
  {
    if |s| > 0 {
      FilterDefined(s[1..], p);
      assert forall i :: 1 <= i < |s| ==> s[i] == s[1..][i - 1];
    }
  }

  /**
   * What `Where` keeps: in source order, exactly the elements on which the
   * condition holds, each as often as it occurs in the source.
   */
  lemma {:induction false} FilterKeeps(s: seq<Value>, p: Expr)
    requires Filter(s, p).Some?
    ensures IsSubsequence(Filter(s, p).value, s)
    ensures forall v :: multiset(Filter(s, p).value)[v] == if Holds(p, v) then multiset(s)[v] else 0
  {
    if |s| > 0 {
      var rest := Filter(s[1..], p).value;
      FilterKeeps(s[1..], p);
      assert s == [s[0]] + s[1..];
      if Holds(p, s[0]) {
        assert ([s[0]] + rest)[1..] == rest;
      }
    }
  }

  /** A condition that is constantly true keeps everything. */
  lemma {:induction false} FilterTrue(s: seq<Value>)
    ensures Filter(s, Constant(Bool(true))) == Some(s)
  {
    if |s| > 0 {
      FilterTrue(s[1..]);
      assert [s[0]] + s[1..] == s;
    }
  }

  /**
   * Two `Where` stages in a row behave as one whose condition is their
   * short-circuit conjunction, exceptions included: the second condition only
   * ever runs on elements the first one kept.
   */
  lemma {:induction false} FilterAndAlso(s: seq<Value>, p: Expr, q: Expr)
    ensures (match Filter(s, p) case None => None case Some(t) => Filter(t, q)) == Filter(s, AndAlso(p, q))
  {
    if |s| > 0 {
      var e, rest := s[0], s[1..];
      FilterAndAlso(rest, p, q);
      var both := AndAlso(p, q);
      if Holds(p, e) {
        assert Eval(both, e) == Eval(q, e);
        match Filter(rest, p)
        case None =>
          assert Filter(s, p) == None;
        case Some(t) =>
          assert Filter(s, p) == Some([e] + t);
          assert ([e] + t)[1..] == t;
          assert Filter([e] + t, q) == Filter(s, both);
      } else if Eval(p, e) == Some(Bool(false)) {
        assert Filter(s, p) == Filter(rest, p);
        assert Eval(both, e) == Some(Bool(false));
        assert Filter(s, both) == Filter(rest, both);
      } else {
        assert Filter(s, p) == None;
        assert !Decides(both, e);
        assert Filter(s, both) == None;
      }
    }
  }

  /** `Where` only looks at what the condition yields on each element: conditions that agree there filter alike. */
  lemma {:induction false} FilterAgrees(s: seq<Value>, p: Expr, q: Expr)
    requires forall i :: 0 <= i < |s| ==> Eval(p, s[i]) == Eval(q, s[i])
    ensures Filter(s, p) == Filter(s, q)
  {
    if |s| > 0 {
      var rest := s[1..];
      forall i | 0 <= i < |rest| ensures Eval(p, rest[i]) == Eval(q, rest[i]) {
        assert rest[i] == s[i + 1];
      }
      FilterAgrees(rest, p, q);
      assert Eval(p, s[0]) == Eval(q, s[0]);
    }
  }

  /**
   * `Count(c, p)` throws exactly when `Where(c, p)` would, and otherwise counts
   * the elements `Where` keeps: those on which `p` holds, with multiplicity.
   */
  lemma {:induction false} CountMatchesFilter(p: Expr, xs: seq<Value>)
    ensures CountMatches(p, xs) == match Filter(xs, p) case None => None case Some(t) => Some(|t|)
  {
    if |xs| > 0 {
      CountMatchesFilter(p, xs[1..]);
    }
  }

  /** `Count(source, p)` on a collection is the number of its elements `Where(source, p)` keeps, or a throw. */
  lemma CountMeaning(source: Expr, p: Expr, x: Value, xs: seq<Value>)
    requires Eval(source, x) == Some(Items(xs))
    ensures Eval(Call(Count, source, p), x) ==
      match Filter(xs, p) case None => None case Some(t) => Some(Int(|t|))
  {
    CountMatchesFilter(p, xs);
  }

  /** The stages `Where(ps[0])`, ..., `Where(ps[n-1])`. */
  function Wheres(ps: seq<Expr>): (r: seq<Stage>)
    ensures |r| == |ps| && forall i :: 0 <= i < |ps| ==> r[i] == Where(ps[i])
  {
    seq(|ps|, i requires 0 <= i < |ps| => Where(ps[i]))
  }

  lemma WheresCons(p: Expr, ps: seq<Expr>)
    ensures Wheres([p] + ps) == [Where(p)] + Wheres(ps)
  {
    var l, r := Wheres([p] + ps), [Where(p)] + Wheres(ps);
    assert |l| == |r|;
    forall i | 0 <= i < |l| ensures l[i] == r[i] {
      if i > 0 {
        assert ([p] + ps)[i] == ps[i - 1];
      }
    }
  }

  /** The conjunction `true && ps[0] && ... && ps[n-1]`. */
  function Conj(ps: seq<Expr>): Expr
    decreases |ps|
  {
    if |ps| == 0 then Constant(Bool(true)) else AndAlso(Conj(ps[..|ps| - 1]), ps[|ps| - 1])
  }

  /** The conjunction holds exactly when every conjunct does. */
  lemma {:induction false} ConjHolds(ps: seq<Expr>, x: Value)
    ensures Holds(Conj(ps), x) <==> forall i :: 0 <= i < |ps| ==> Holds(ps[i], x)
    decreases |ps|
  {
    if |ps| > 0 {
      var init := ps[..|ps| - 1];
      ConjHolds(init, x);
      assert forall i :: 0 <= i < |init| ==> init[i] == ps[i];
    }
  }

  /**
   * Composing one `Where` stage per predicate filters what the handle yields
   * by the conjunction of the predicates; with no predicate the result is unchanged.
   */
  lemma {:induction false} RunWheres(q: Query, ps: seq<Expr>)
    ensures Run(Query(q.source, q.stages + Wheres(ps))) ==
      match Run(q) case None => None case Some(s) => Filter(s, Conj(ps))
    decreases |ps|
  {
    if |ps| == 0 {
      assert q.stages + Wheres(ps) == q.stages;
      if Run(q).Some? { FilterTrue(Run(q).value); }
    } else {
      var init := ps[..|ps| - 1];
      RunWheres(q, init);
      var stages := q.stages + Wheres(ps);
      assert stages[..|stages| - 1] == q.stages + Wheres(init);
      match Run(q)
      case None =>
      case Some(s) =>
        FilterAndAlso(s, Conj(init), ps[|ps| - 1]);
    }
  }

  // ---------------------------------------------------------------------------
  // OrderBy / OrderByDescending

  /** The key of `x`; only used once every key is known to evaluate. */
  function KeyOf(key: Expr, x: Value): Value {
    match Eval(key, x)
    case Some(k) => k
    case None => Null
  }

  /** `a` may come before `b` in the requested direction. */
  predicate Precedes(key: Expr, ascending: bool, a: Value, b: Value) {
    if ascending then KeyLe(KeyOf(key, a), KeyOf(key, b)) else KeyLe(KeyOf(key, b), KeyOf(key, a))
  }

  predicate Sorted(t: seq<Value>, key: Expr, ascending: bool) {
    forall i :: 0 <= i < |t| - 1 ==> Precedes(key, ascending, t[i], t[i + 1])
  }

  /** Places `x` before the first element it may precede: ahead of every equal key. */
  function Insert(x: Value, t: seq<Value>, key: Expr, ascending: bool): (r: seq<Value>)
    ensures |r| == |t| + 1 && multiset(r) == multiset(t) + multiset{x}
    ensures r[0] == x || (|t| > 0 && r[0] == t[0])
  {
    if |t| == 0 || Precedes(key, ascending, x, t[0]) then
      [x] + t
    else
      assert t == [t[0]] + t[1..];
      [t[0]] + Insert(x, t[1..], key, ascending)
  }

  /** Inserting into a sorted sequence keeps it sorted. */
  lemma {:induction false} InsertSorted(x: Value, t: seq<Value>, key: Expr, ascending: bool)
    requires Sorted(t, key, ascending)
    ensures Sorted(Insert(x, t, key, ascending), key, ascending)
  {
    if |t| > 0 && !Precedes(key, ascending, x, t[0]) {
      var tail := t[1..];
      forall i | 0 <= i < |tail| - 1 ensures Precedes(key, ascending, tail[i], tail[i + 1]) {
        assert tail[i] == t[i + 1] && tail[i + 1] == t[i + 2];
      }
      InsertSorted(x, tail, key, ascending);
      var rest := Insert(x, tail, key, ascending);
      KeyLeTotal(KeyOf(key, x), KeyOf(key, t[0]));
      assert Precedes(key, ascending, t[0], rest[0]);
      var r := [t[0]] + rest;
      forall i | 0 <= i < |r| - 1 ensures Precedes(key, ascending, r[i], r[i + 1]) {
        if i > 0 {
          assert r[i] == rest[i - 1] && r[i + 1] == rest[i];
        }
      }
    }
  }

  /** A stable insertion sort: elements with equal keys keep their source order. */
  function InsertionSort(s: seq<Value>, key: Expr, ascending: bool): (r: seq<Value>)
    ensures multiset(r) == multiset(s)
    ensures Sorted(r, key, ascending)
  {
    if |s| == 0 then []
    else
      assert s == [s[0]] + s[1..];
      var sorted := InsertionSort(s[1..], key, ascending);
      InsertSorted(s[0], sorted, key, ascending);
      Insert(s[0], sorted, key, ascending)
  }

  /**
   * `OrderBy` (ascending) or `OrderByDescending`: throws when a key throws;
   * otherwise a permutation of `s` ordered by key in the requested direction.
   */
  function SortBy(s: seq<Value>, key: Expr, ascending: bool): (r: Option<seq<Value>>)
    ensures r.Some? <==> forall i :: 0 <= i < |s| ==> Eval(key, s[i]).Some?
    ensures r.Some? ==> multiset(r.value) == multiset(s) && Sorted(r.value, key, ascending)
  {
    if forall i | 0 <= i < |s| :: Eval(key, s[i]).Some? then Some(InsertionSort(s, key, ascending)) else None
  }

  // ---------------------------------------------------------------------------
  // Skip and Take

  /** `Enumerable.Skip`: a count of zero or less skips nothing. */
  function SkipItems(s: seq<Value>, n: int): seq<Value> {
    if n <= 0 then s else if n >= |s| then [] else s[n..]
  }

  /** `Enumerable.Take`: a count of zero or less takes nothing. */
  function TakeItems(s: seq<Value>, n: int): seq<Value> {
    if n <= 0 then [] else if n >= |s| then s else s[..n]
  }
}
