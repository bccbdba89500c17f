/**
 * The repository's test scenario: orders of a fake repository filtered by an
 * `OrderFilterExampleModel` in which only `CustomerId` (on path
 * `Customer.Id`), `OrderBy` and `Way` are set, then ordered by `Price`.
 */
module Examples {
  import opened Wrappers
  import opened Values
  import opened Expressions
  import opened Queries
  import opened TypeSchema
  import opened FilterModel
  import opened EntityFilterAttribute
  import opened ExpressionBuilder
  import opened EntityFilterExtension
  import Text

  const OrderEntity: Ty := Named("OrderEntity")
  const CustomerEntity: Ty := Named("CustomerEntity")

  /** The properties of `OrderEntity` in the test project (`Price` is a `double` there). */
  const OrderFields: map<string, Ty> := map[
    "Id" := Int32, "Description" := Named("String"), "Date" := Named("DateTime"),
    "Price" := Named("Double"), "Status" := Int32, "CustomerId" := Int32, "Customer" := CustomerEntity]

  /** The properties of `CustomerEntity` in the test project. */
  const CustomerFields: map<string, Ty> := map[
    "Id" := Int32, "Name" := Named("String"), "DateOfBirth" := Named("DateTime"),
    "Orders" := CollectionOf(OrderEntity)]

  const Shop: Schema := map["OrderEntity" := OrderFields, "CustomerEntity" := CustomerFields]

  /** The three property lookups the scenario performs. */
  predicate ReadsLikeShop(schema: Schema) {
    && PropertyType(schema, OrderEntity, "Customer") == Some(CustomerEntity)
    && PropertyType(schema, CustomerEntity, "Id") == Some(Int32)
    && PropertyType(schema, OrderEntity, "Price").Some?
  }

  lemma ShopLookups()
    ensures ReadsLikeShop(Shop)
  {
    assert OrderFields["Customer"] == CustomerEntity;
    assert CustomerFields["Id"] == Int32;
    assert "Price" in OrderFields;
  }

  /** `OrderFilterExampleModel` with `CustomerId = 3`, `OrderBy = "Price"`, `Way = "asc"` and the rest null. */
  const CustomerThree: Model := NullFilters + [CustomerIdProperty] + Unannotated

  /** The annotated properties the test leaves null, in declaration order. */
  const NullFilters: Model := [
    ModelProperty("MinDate", Null, true, Some(Annotation(GreaterThan, Some("Date")))),
    ModelProperty("MaxDate", Null, true, Some(Annotation(LessThan, Some("Date")))),
    ModelProperty("Description", Null, true, Some(Annotation(Contains, None))),
    ModelProperty("Status", Null, true, Some(Annotation(Equal, None))),
    ModelProperty("MinPrice", Null, true, Some(Annotation(GreaterThanOrEqual, Some("Price")))),
    ModelProperty("MaxPrice", Null, true, Some(Annotation(LessThanOrEqual, Some("Price"))))]

  /** The ordering properties, which carry no annotation. */
  const Unannotated: Model := [
    ModelProperty("OrderBy", Str("Price"), true, None),
    ModelProperty("Way", Str("asc"), true, None)]

  /** The one property set and annotated: `[EntityFilter(Operator = EQUAL, OnProperty = "Customer.Id")] CustomerId = 3`. */
  const CustomerIdProperty: ModelProperty<OperatorType> :=
    ModelProperty("CustomerId", Int(3), true, Some(Annotation(Equal, Some("Customer.Id"))))

  /** An order whose `CustomerId` is its customer's `Id`, as in the fake repository, and which has a `Price`. */
  predicate LinkedOrder(x: Value) {
    && x.Obj? && "CustomerId" in x.fields && "Price" in x.fields && "Customer" in x.fields
    && x.fields["Customer"].Obj? && "Id" in x.fields["Customer"].fields
    && x.fields["Customer"].fields["Id"] == x.fields["CustomerId"]
  }

  /** The test's expected query: `Where(x => x.CustomerId == 3).OrderBy(x => x.Price)`. */
  function Expected(orders: seq<Value>): Query {
    Query(orders, [])
      .Then(Where(Compare(Eq, Property(Parameter, "CustomerId"), Constant(Int(3)))))
      .Then(OrderBy(Property(Parameter, "Price"), true))
  }

  /** What the condition for `CustomerId` reads: `x.Customer.Id`. */
  const CustomerIdRead: Expr := Property(Property(Parameter, "Customer"), "Id")

  /** `Customer.Id` splits into `Customer` and `Id`. */
  lemma CustomerIdSegments()
    ensures Text.Split("Customer.Id", '.') == ["Customer", "Id"]
  {
    assert "Customer.Id" == "Customer" + ['.'] + "Id";
    Text.SplitAfter("Customer", "Id", '.');
    Text.SplitWithout("Id", '.');
  }

  /** Walking `Customer` then `Id` from `OrderEntity` reads `x.Customer.Id`, an `Int32`. */
  lemma CustomerIdWalk(schema: Schema)
    requires ReadsLikeShop(schema)
    ensures WalkProperties(schema, Parameter, OrderEntity, ["Customer", "Id"]) == Success((CustomerIdRead, Int32))
  {
    var segments := ["Customer", "Id"];
    assert segments[1..] == ["Id"];
    assert ["Id"][1..] == [];
  }

  /** On a path of plain segments the condition is the operator applied to what the walk reads. */
  lemma PlainCondition(schema: Schema, model: Model, root: Ty, path: string, read: Expr, ty: Ty, v: Value, op: OperatorType)
    requires forall i :: 0 <= i < |Text.Split(path, '.')| ==> !IsCollectionProperty(Text.Split(path, '.')[i])
    requires WalkProperties(schema, Parameter, root, Text.Split(path, '.')) == Success((read, ty))
    ensures WherePredicate(schema, model, root, path, v, op) == Success(ApplyOperatorType(read, v, op))
  {
    PlainPathIsWalk(schema, model, Parameter, root, Text.Split(path, '.'));
  }

  /** A path splitting into `Customer` and `Id` is plain: its condition compares `x.Customer.Id` with 3. */
  lemma CustomerIdCondition(schema: Schema, model: Model, path: string)
    requires ReadsLikeShop(schema)
    requires Text.Split(path, '.') == ["Customer", "Id"]
    ensures WherePredicate(schema, model, OrderEntity, path, Int(3), Equal) ==
      Success(Compare(Eq, CustomerIdRead, Constant(Int(3))))
  {
    CustomerIdWalk(schema);
    var segments := ["Customer", "Id"];
    assert forall i :: 0 <= i < |segments| ==> !IsCollectionProperty(segments[i]) by {
      assert segments[0][0] == 'C' && segments[1][0] == 'I';
    }
    PlainCondition(schema, model, OrderEntity, path, CustomerIdRead, Int32, Int(3), Equal);
  }

  /** A selected `EQUAL` filter with value 3 on a path that splits into `Customer` and `Id`. */
  predicate CustomerIdFilter(p: ModelProperty<OperatorType>) {
    && IsSelected(p) && p.value == Int(3) && p.annotation.value.operator == Equal
    && Text.Split(TargetPath(p), '.') == ["Customer", "Id"]
  }

  lemma CustomerIdPropertyFilters()
    ensures CustomerIdFilter(CustomerIdProperty)
  {
    assert TargetPath(CustomerIdProperty) == "Customer.Id";
    CustomerIdSegments();
  }

  /** Of the nine properties only `CustomerId` has both a value and an annotation. */
  lemma OnlyCustomerIdSelected()
    ensures SelectedOf(CustomerThree) == [CustomerIdProperty]
  {
    NullFiltersUnselected();
    UnannotatedUnselected();
    CustomerIdSelected();
    SelectedOfAppend(NullFilters, [CustomerIdProperty]);
    SelectedOfAppend(NullFilters + [CustomerIdProperty], Unannotated);
  }

  lemma NullFiltersUnselected()
    ensures SelectedOf(NullFilters) == []
  {
    forall i | 0 <= i < |NullFilters| ensures NullFilters[i].value == Null { }
    SelectedOfNone(NullFilters);
  }

  lemma UnannotatedUnselected()
    ensures SelectedOf(Unannotated) == []
  {
    forall i | 0 <= i < |Unannotated| ensures Unannotated[i].annotation == None { }
    SelectedOfNone(Unannotated);
  }

  lemma CustomerIdSelected()
    ensures SelectedOf([CustomerIdProperty]) == [CustomerIdProperty]
  {
    assert [CustomerIdProperty][1..] == [];
  }

  /** The `CustomerId` property's condition is the only one built. */
  lemma CustomerIdConditions(schema: Schema, model: Model, p: ModelProperty<OperatorType>)
    requires ReadsLikeShop(schema) && CustomerIdFilter(p)
    ensures Conditions([p], EntityCondition(schema, OrderEntity, model)) ==
      Success([Compare(Eq, CustomerIdRead, Constant(Int(3)))])
  {
    var build := EntityCondition(schema, OrderEntity, model);
    var c := Compare(Eq, CustomerIdRead, Constant(Int(3)));
    CustomerIdCondition(schema, model, TargetPath(p));
    assert ConditionFor(build, p) == Success(c);
    assert [p][1..] == [];
    assert Conditions([p][1..], build) == Success([]);
    assert [c] + [] == [c];
  }

  /** On a linked order `x.Customer.Id == 3` and `x.CustomerId == 3` evaluate alike. */
  lemma LinkedConditionsAgree(x: Value)
    requires LinkedOrder(x)
    ensures Eval(Compare(Eq, CustomerIdRead, Constant(Int(3))), x) ==
      Eval(Compare(Eq, Property(Parameter, "CustomerId"), Constant(Int(3))), x)
  {
    var customer := x.fields["Customer"];
    assert Eval(Property(Parameter, "Customer"), x) == Some(customer);
    assert Eval(CustomerIdRead, x) == Some(customer.fields["Id"]);
    assert Eval(Property(Parameter, "CustomerId"), x) == Some(x.fields["CustomerId"]);
  }

  /** A model whose only selected property is `CustomerId` composes exactly its one `Where` stage. */
  lemma FilterBuildsOneStage(schema: Schema, model: Model, p: ModelProperty<OperatorType>, orders: seq<Value>)
    requires ReadsLikeShop(schema) && CustomerIdFilter(p)
    requires SelectedOf(model) == [p]
    ensures Conjoin(Query(orders, []), model, EntityCondition(schema, OrderEntity, model)) ==
      Success(Query(orders, [Where(Compare(Eq, CustomerIdRead, Constant(Int(3))))]))
  {
    var build := EntityCondition(schema, OrderEntity, model);
    var c := Compare(Eq, CustomerIdRead, Constant(Int(3)));
    CustomerIdConditions(schema, model, p);
    ConjoinStages(Query(orders, []), model, build);
    assert Wheres([c]) == [Where(c)];
    assert [] + [Where(c)] == [Where(c)];
  }

  /** `OrderByExpressionBuilder("Price", "asc")` orders ascending by `x.Price`. */
  lemma PriceOrder(schema: Schema, q: Query, path: string)
    requires ReadsLikeShop(schema) && Text.Split(path, '.') == ["Price"]
    ensures OrderByPath(schema, q, OrderEntity, path, "asc") == Success(q.Then(OrderBy(Property(Parameter, "Price"), true)))
  {
    assert WalkProperties(schema, Parameter, OrderEntity, ["Price"]).value.0 == Property(Parameter, "Price");
  }

  /**
   * `FilterFromModel` followed by `OrderByExpressionBuilder("Price", "asc")`
   * builds without error and yields what the expected query yields: only the
   * `CustomerId` property is selected (`OrderBy` and `Way` carry no
   * annotation, the others are null), and on linked orders `Customer.Id`
   * reads the same value as `CustomerId`. Stated for any schema with the
   * lookups the scenario performs; `Shop` is one. Both queries run on the
   * same orders and their results compare as values, which is the equality
   * the test intends; object identity is not modelled.
   */
  lemma FilterOnCustomerId(schema: Schema, orders: seq<Value>)
    requires ReadsLikeShop(schema)
    requires forall i :: 0 <= i < |orders| ==> LinkedOrder(orders[i])
    ensures var filtered := Conjoin(Query(orders, []), CustomerThree, EntityCondition(schema, OrderEntity, CustomerThree));
      && filtered.Success?
      && OrderByPath(schema, filtered.value, OrderEntity, "Price", "asc").Success?
      && Run(OrderByPath(schema, filtered.value, OrderEntity, "Price", "asc").value) == Run(Expected(orders))
  {
    OnlyCustomerIdSelected();
    CustomerIdPropertyFilters();
    Text.SplitWithout("Price", '.');
    FilterThenOrder(schema, CustomerThree, CustomerIdProperty, orders, "Price");
  }

  /** The scenario for any filter model whose only selected property is a `Customer.Id` filter. */
  lemma FilterThenOrder(schema: Schema, model: Model, p: ModelProperty<OperatorType>, orders: seq<Value>, path: string)
    requires ReadsLikeShop(schema) && CustomerIdFilter(p) && Text.Split(path, '.') == ["Price"]
    requires SelectedOf(model) == [p]
    requires forall i :: 0 <= i < |orders| ==> LinkedOrder(orders[i])
    ensures var filtered := Conjoin(Query(orders, []), model, EntityCondition(schema, OrderEntity, model));
      && filtered.Success?
      && OrderByPath(schema, filtered.value, OrderEntity, path, "asc").Success?
      && Run(OrderByPath(schema, filtered.value, OrderEntity, path, "asc").value) == Run(Expected(orders))
  {
    var c := Compare(Eq, CustomerIdRead, Constant(Int(3)));
    var key := Property(Parameter, "Price");
    FilterBuildsOneStage(schema, model, p, orders);
    PriceOrder(schema, Query(orders, [Where(c)]), path);
    assert Query(orders, [Where(c)]).Then(OrderBy(key, true)) == Query(orders, [Where(c), OrderBy(key, true)]);
    LinkedOrdersAsExpected(orders);
  }

  /** Filtering linked orders on `x.Customer.Id == 3` and ordering by `Price` yields what the expected query yields. */
  lemma LinkedOrdersAsExpected(orders: seq<Value>)
    requires forall i :: 0 <= i < |orders| ==> LinkedOrder(orders[i])
    ensures Run(Query(orders, [Where(Compare(Eq, CustomerIdRead, Constant(Int(3)))), OrderBy(Property(Parameter, "Price"), true)]))
      == Run(Expected(orders))
  {
    var c := Compare(Eq, CustomerIdRead, Constant(Int(3)));
    var key := Property(Parameter, "Price");
    var expectedCondition := Compare(Eq, Property(Parameter, "CustomerId"), Constant(Int(3)));
    LinkedFiltersAgree(orders);
    SameWhereThenOrder(orders, c, expectedCondition, key);
    assert Expected(orders) == Query(orders, [Where(expectedCondition), OrderBy(key, true)]);
  }

  /** On linked orders the two conditions agree, so both keep the same orders. */
  lemma LinkedFiltersAgree(orders: seq<Value>)
    requires forall i :: 0 <= i < |orders| ==> LinkedOrder(orders[i])
    ensures Filter(orders, Compare(Eq, CustomerIdRead, Constant(Int(3)))) ==
      Filter(orders, Compare(Eq, Property(Parameter, "CustomerId"), Constant(Int(3))))
  {
    var c := Compare(Eq, CustomerIdRead, Constant(Int(3)));
    var expectedCondition := Compare(Eq, Property(Parameter, "CustomerId"), Constant(Int(3)));
    forall i | 0 <= i < |orders|
      ensures Eval(c, orders[i]) == Eval(expectedCondition, orders[i])
    {
      LinkedConditionsAgree(orders[i]);
    }
    FilterAgrees(orders, c, expectedCondition);
  }

  /** Two handles whose `Where` stages keep the same elements still agree after the same `OrderBy`. */
  lemma SameWhereThenOrder(s: seq<Value>, p: Expr, q: Expr, key: Expr)
    requires Filter(s, p) == Filter(s, q)
    ensures Run(Query(s, [Where(p), OrderBy(key, true)])) == Run(Query(s, [Where(q), OrderBy(key, true)]))
  {
    RunTwoStages(s, Where(p), OrderBy(key, true));
    RunTwoStages(s, Where(q), OrderBy(key, true));
  }
}
