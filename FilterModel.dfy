/**
 * The caller's filter model as the drivers see it through reflection: its
 * properties in the order reflection lists them, each with a value, a visibility and at most
 * one filter annotation (operator plus optional target path). Also the fold
 * both drivers perform: one `Where` stage per selected property.
 */
module FilterModel {
  import opened Wrappers
  import opened Values
  import opened Expressions
  import opened Queries
  import opened TypeSchema
  import Text

  /** A filter annotation: `Operator` and the optional `OnProperty` target path. */
  datatype Annotation<Op> = Annotation(operator: Op, onProperty: Option<string>)

  datatype ModelProperty<Op> = ModelProperty(
    name: string,
    value: Value,
    isPublic: bool,
    annotation: Option<Annotation<Op>>)

  /**
   * `string.IsNullOrWhiteSpace(value?.ToString())`: null, or a string of white
   * space only. Numbers, booleans, dates and objects never print as blank.
   */
  predicate IsBlank(v: Value) {
    v.Null? || (v.Str? && Text.IsWhiteSpaceOnly(v.s))
  }

  /** A property contributes a filter: listed by `GetProperties()`, has a value, carries the annotation. */
  predicate IsSelected<Op>(p: ModelProperty<Op>) {
    p.isPublic && !IsBlank(p.value) && p.annotation.Some?
  }

  /** The path to filter on: `OnProperty` unless it is null or empty, else the property's own name. */
  function TargetPath<Op>(p: ModelProperty<Op>): (path: string)
    requires p.annotation.Some?
    ensures path == p.name || Some(path) == p.annotation.value.onProperty
    ensures path == p.name <== p.annotation.value.onProperty in {None, Some("")}
    ensures p.annotation.value.onProperty !in {None, Some("")} ==> Some(path) == p.annotation.value.onProperty
  {
    var on := p.annotation.value.onProperty;
    if on.None? || on.value == "" then p.name else on.value
  }

  /**
   * The value of the model's first property named `name`, public or not
   * (`GetProperties(Instance | Public | NonPublic).FirstOrDefault`).
   */
  function FindValue<Op>(model: seq<ModelProperty<Op>>, name: string): (r: Option<Value>)
    ensures r.None? <==> forall i :: 0 <= i < |model| ==> model[i].name != name
  {
    if |model| == 0 then None
    else if model[0].name == name then Some(model[0].value)
    else
      assert forall i :: 1 <= i < |model| ==> model[i] == model[1..][i - 1];
      FindValue(model[1..], name)
  }

  /** A value that is found belongs to the first property of that name. */
  lemma {:induction false} FindValueFirst<Op>(model: seq<ModelProperty<Op>>, name: string)
    requires FindValue(model, name).Some?
    ensures exists k ::
      && 0 <= k < |model| && model[k].name == name && model[k].value == FindValue(model, name).value
      && forall i :: 0 <= i < k ==> model[i].name != name
  {
    if model[0].name != name {
      FindValueFirst(model[1..], name);
      var k :| 0 <= k < |model[1..]| && model[1..][k].name == name && model[1..][k].value == FindValue(model[1..], name).value
        && forall i :: 0 <= i < k ==> model[1..][i].name != name;
      assert model[k + 1].name == name && model[k + 1].value == FindValue(model, name).value;
      assert forall i :: 1 <= i < k + 1 ==> model[i] == model[1..][i - 1];
    } else {
      assert model[0].value == FindValue(model, name).value;
    }
  }

  /** The selected properties, in the order they are listed. */
  function SelectedOf<Op>(props: seq<ModelProperty<Op>>): (r: seq<ModelProperty<Op>>)
    ensures forall i :: 0 <= i < |r| ==> IsSelected(r[i])
  {
    if |props| == 0 then []
    else (if IsSelected(props[0]) then [props[0]] else []) + SelectedOf(props[1..])
  }

  /** The selected properties are exactly the properties that are selected, none added. */
  lemma {:induction false} SelectedOfMembers<Op>(props: seq<ModelProperty<Op>>)
    ensures |SelectedOf(props)| <= |props|
    ensures forall p :: p in SelectedOf(props) <==> p in props && IsSelected(p)
  {
    if |props| > 0 {
      SelectedOfMembers(props[1..]);
      assert props == [props[0]] + props[1..];
    }
  }

  /** Selecting from two runs of properties selects from each in turn. */
  lemma {:induction false} SelectedOfAppend<Op>(a: seq<ModelProperty<Op>>, b: seq<ModelProperty<Op>>)
    ensures SelectedOf(a + b) == SelectedOf(a) + SelectedOf(b)
    decreases |a|
  {
    if |a| > 0 {
      SelectedOfAppend(a[1..], b);
      var head := if IsSelected(a[0]) then [a[0]] else [];
      assert (a + b)[0] == a[0];
      assert (a + b)[1..] == a[1..] + b;
      assert SelectedOf(a + b) == head + SelectedOf(a[1..] + b);
      assert SelectedOf(a) == head + SelectedOf(a[1..]);
    } else {
      assert a + b == b;
    }
  }

  /** Properties none of which is selected select nothing. */
  lemma {:induction false} SelectedOfNone<Op>(props: seq<ModelProperty<Op>>)
    requires forall i :: 0 <= i < |props| ==> !IsSelected(props[i])
    ensures SelectedOf(props) == []
    decreases |props|
  {
    if |props| > 0 {
      assert forall i :: 1 <= i < |props| ==> props[1..][i - 1] == props[i];
      SelectedOfNone(props[1..]);
    }
  }

  /** Builds the condition for one selected property from its target path, its value and its operator. */
  type ConditionBuilder<-Op> = (string, Value, Op) -> Result<Expr, BuildError>

  function ConditionFor<Op>(build: ConditionBuilder<Op>, p: ModelProperty<Op>): Result<Expr, BuildError>
    requires IsSelected(p)
  {
    build(TargetPath(p), p.value, p.annotation.value.operator)
  }

  /**
   * The drivers' loop: walks the properties in order, skips the unselected
   * ones and composes one `Where` stage per selected one; the first condition
   * that cannot be built fails the whole call.
   */
  function Conjoin<Op>(q: Query, props: seq<ModelProperty<Op>>, build: ConditionBuilder<Op>): Result<Query, BuildError>
    decreases |props|
  {
    if |props| == 0 then Success(q)
    else if IsSelected(props[0]) then
      var condition :- ConditionFor(build, props[0]);
      Conjoin(q.Then(Where(condition)), props[1..], build)
    else
      Conjoin(q, props[1..], build)
  }

  /** The conditions of the given (selected) properties, in order; the first failure wins. */
  function Conditions<Op>(selected: seq<ModelProperty<Op>>, build: ConditionBuilder<Op>): Result<seq<Expr>, BuildError>
    requires forall i :: 0 <= i < |selected| ==> IsSelected(selected[i])
    decreases |selected|
  {
    if |selected| == 0 then Success([])
    else
      var c :- ConditionFor(build, selected[0]);
      var rest :- Conditions(selected[1..], build);
      Success([c] + rest)
  }

  /**
   * The conditions are built one per selected property, in order, and the
   * error reported is that of the first property whose condition fails.
   */
  lemma {:induction false} ConditionsMeaning<Op>(selected: seq<ModelProperty<Op>>, build: ConditionBuilder<Op>)
    requires forall i :: 0 <= i < |selected| ==> IsSelected(selected[i])
    ensures var r := Conditions(selected, build);
      && (r.Success? <==> forall i :: 0 <= i < |selected| ==> ConditionFor(build, selected[i]).Success?)
      && (r.Success? ==>
            && |r.value| == |selected|
            && forall i :: 0 <= i < |selected| ==> ConditionFor(build, selected[i]) == Success(r.value[i]))
      && (r.Failure? ==> exists k ::
            && 0 <= k < |selected| && ConditionFor(build, selected[k]) == Failure(r.error)
            && forall i :: 0 <= i < k ==> ConditionFor(build, selected[i]).Success?)
    decreases |selected|
  {
    if |selected| > 0 {
      var tail := selected[1..];
      ConditionsMeaning(tail, build);
      assert forall i :: 1 <= i < |selected| ==> selected[i] == tail[i - 1];
      var first := ConditionFor(build, selected[0]);
      var r := Conditions(selected, build);
      if first.Success? {
        var rest := Conditions(tail, build);
        if rest.Success? {
          assert r == Success([first.value] + rest.value);
        } else {
          var k :| && 0 <= k < |tail| && ConditionFor(build, tail[k]) == Failure(rest.error)
                   && forall i :: 0 <= i < k ==> ConditionFor(build, tail[i]).Success?;
          assert ConditionFor(build, selected[k + 1]) == Failure(r.error);
        }
      } else {
        assert ConditionFor(build, selected[0]) == Failure(r.error);
      }
    }
  }

  /**
   * The fold composes exactly one `Where` stage per selected property, in
   * the order the properties are listed, onto the untouched handle, or fails with the first
   * selected property whose condition cannot be built.
   */
  lemma {:induction false} ConjoinStages<Op>(q: Query, props: seq<ModelProperty<Op>>, build: ConditionBuilder<Op>)
    ensures Conjoin(q, props, build) == Staged(q, Conditions(SelectedOf(props), build))
    decreases |props|
  {
    if |props| == 0 {
      assert q.stages + Wheres([]) == q.stages;
    } else {
      var rest := props[1..];
      if IsSelected(props[0]) {
        var sel := SelectedOf(props);
        assert sel == [props[0]] + SelectedOf(rest);
        assert sel[1..] == SelectedOf(rest);
        var first := ConditionFor(build, props[0]);
        if first.Success? {
          ConjoinStages(q.Then(Where(first.value)), rest, build);
          StagedCons(q, first.value, sel, build);
        } else {
          assert Conditions(sel, build) == Failure(first.error);
        }
      } else {
        ConjoinStages(q, rest, build);
        assert SelectedOf(props) == SelectedOf(rest);
      }
    }
  }

  /** A successful first condition becomes the first `Where` stage. */
  lemma {:induction false} StagedCons<Op>(q: Query, c: Expr, sel: seq<ModelProperty<Op>>, build: ConditionBuilder<Op>)
    requires |sel| > 0
    requires forall i :: 0 <= i < |sel| ==> IsSelected(sel[i])
    requires ConditionFor(build, sel[0]) == Success(c)
    ensures Staged(q.Then(Where(c)), Conditions(sel[1..], build)) == Staged(q, Conditions(sel, build))
  {
    var tail := Conditions(sel[1..], build);
    if tail.Success? {
      var cs := tail.value;
      assert Conditions(sel, build) == Success([c] + cs);
      WheresCons(c, cs);
      assert q.Then(Where(c)).stages + Wheres(cs) == q.stages + Wheres([c] + cs);
    } else {
      assert Conditions(sel, build) == Failure(tail.error);
    }
  }

  /** The handle with one `Where` stage per built condition, or the first build failure. */
  function Staged(q: Query, conditions: Result<seq<Expr>, BuildError>): Result<Query, BuildError> {
    match conditions
    case Failure(e) => Failure(e)
    case Success(cs) => Success(Query(q.source, q.stages + Wheres(cs)))
  }

  /** With no property selected the handle comes back unchanged. */
  lemma ConjoinNothingSelected<Op>(q: Query, props: seq<ModelProperty<Op>>, build: ConditionBuilder<Op>)
    requires forall i :: 0 <= i < |props| ==> !IsSelected(props[i])
    ensures Conjoin(q, props, build) == Success(q)
  {
    ConjoinStages(q, props, build);
    assert SelectedOf(props) == [];
    assert q.stages + Wheres([]) == q.stages;
  }

  /**
   * Running the composed handle keeps, in source order and with their
   * multiplicity, exactly the entities on which every selected property's
   * condition holds: the stages act as a conjunction.
   */
  lemma ConjoinFilters<Op>(q: Query, props: seq<ModelProperty<Op>>, build: ConditionBuilder<Op>, s: seq<Value>)
    requires Conjoin(q, props, build).Success?
    requires Run(q) == Some(s)
    ensures Conditions(SelectedOf(props), build).Success?
    ensures Conjoin(q, props, build).value ==
      Query(q.source, q.stages + Wheres(Conditions(SelectedOf(props), build).value))
    ensures var cs := Conditions(SelectedOf(props), build).value;
      var r := Run(Conjoin(q, props, build).value);
      && (r.Some? <==> forall i :: 0 <= i < |s| ==> Decides(Conj(cs), s[i]))
      && (r.Some? ==> IsSubsequence(r.value, s))
      && (r.Some? ==> forall v ::
            multiset(r.value)[v] == if forall k :: 0 <= k < |cs| ==> Holds(cs[k], v) then multiset(s)[v] else 0)
  {
    ConjoinStages(q, props, build);
    var cs := Conditions(SelectedOf(props), build).value;
    RunWheres(q, cs);
    var r := Run(Conjoin(q, props, build).value);
    assert r == Filter(s, Conj(cs));
    FilterDefined(s, Conj(cs));
    if r.Some? {
      FilterKeeps(s, Conj(cs));
      forall v ensures Holds(Conj(cs), v) <==> forall k :: 0 <= k < |cs| ==> Holds(cs[k], v) {
        ConjHolds(cs, v);
      }
    }
  }
}
