/**
 * The expression builder of `EntityFilterAttribute`-driven filtering: the
 * operator semantics, the collection mini-language
 * `[Collection | Method | Field Op ModelField]`, the resolution of a dotted
 * property path (plain and collection segments) over the type schema, and
 * the `Where` / `OrderBy` builders that compose one stage onto a query.
 */
module ExpressionBuilder {
  import opened Wrappers
  import opened Values
  import opened Expressions
  import opened Queries
  import opened TypeSchema
  import opened FilterModel
  import opened EntityFilterAttribute
  import Text

  /** A filter model whose annotations carry the seven-case operator. */
  type Model = seq<ModelProperty<OperatorType>>

  // ---------------------------------------------------------------------------
  // Operators

  /** The node built around property expression `e` for operator `op` and model value `v`. */
  function ApplyOperatorType(e: Expr, v: Value, op: OperatorType): Expr {
    match op
    case Equal => Compare(Eq, e, Constant(v))
    case NotEqual => Compare(Ne, e, Constant(v))
    case GreaterThan => Compare(Gt, e, Constant(v))
    case LessThan => Compare(Lt, e, Constant(v))
    case LessThanOrEqual => Compare(Le, e, Constant(v))
    case GreaterThanOrEqual => Compare(Ge, e, Constant(v))
    case Contains => GuardedContains(e, v)
  }

  /**
   * What each operator means for a property value `a` and the model value `v`:
   * equality and inequality on any values, the four orderings on comparable
   * values only (false otherwise, null included), and `Contains` as "not null
   * and a substring"; `None` where evaluating it throws (`Contains` on a
   * non-string).
   */
  function Satisfies(op: OperatorType, a: Value, v: Value): Option<bool> {
    match op
    case Equal => Some(a == v)
    case NotEqual => Some(a != v)
    case GreaterThan => Some(Comparable(a, v) && Less(v, a))
    case LessThan => Some(Comparable(a, v) && Less(a, v))
    case GreaterThanOrEqual => Some(Comparable(a, v) && !Less(a, v))
    case LessThanOrEqual => Some(Comparable(a, v) && !Less(v, a))
    case Contains => ContainsOutcome(a, v)
  }

  /**
   * The built node evaluates to what the operator means on the value of the
   * property expression; it throws exactly when reading the property throws
   * or the operator is undefined on that value.
   */
  lemma ApplyOperatorMeaning(e: Expr, v: Value, op: OperatorType, x: Value)
    ensures Eval(ApplyOperatorType(e, v, op), x) ==
      match Eval(e, x)
      case None => None
      case Some(a) => Outcome(Satisfies(op, a, v))
  {
    if op == Contains {
      GuardedContainsMeaning(e, v, x);
    } else {
      ComparisonOperatorMeaning(e, v, op, x);
      if Eval(e, x).Some? {
        SatisfiesCompares(op, Eval(e, x).value, v);
      }
    }
  }

  /** Every operator but `Contains` builds a comparison with the constant. */
  lemma ComparisonOperatorMeaning(e: Expr, v: Value, op: OperatorType, x: Value)
    requires op != Contains
    ensures Eval(ApplyOperatorType(e, v, op), x) ==
      match Eval(e, x)
      case None => None
      case Some(a) => Some(Bool(Compares(ComparisonOf(op), a, v)))
  {
    assert ApplyOperatorType(e, v, op) == Compare(ComparisonOf(op), e, Constant(v));
    CompareMeaning(ComparisonOf(op), e, v, x);
  }

  /** What an operator other than `Contains` means is what its comparison node computes. */
  lemma SatisfiesCompares(op: OperatorType, a: Value, v: Value)
    requires op != Contains
    ensures Satisfies(op, a, v) == Some(Compares(ComparisonOf(op), a, v))
  {
  }

  /** The comparison node each operator other than `Contains` builds. */
  function ComparisonOf(op: OperatorType): Comparison
    requires op != Contains
  {
    match op
    case Equal => Eq
    case NotEqual => Ne
    case GreaterThan => Gt
    case LessThan => Lt
    case LessThanOrEqual => Le
    case GreaterThanOrEqual => Ge
  }

  // ---------------------------------------------------------------------------
  // The operator-symbol table of the collection mini-language

  /** The four symbols a collection clause may use, and the operators they stand for. */
  const OperatorMatcherTable: map<string, OperatorType> :=
    map["==" := Equal, ">=" := GreaterThanOrEqual, "<=" := LessThanOrEqual, "!=" := NotEqual]

  /** Looks an operator symbol up; any other token is an error naming it. */
  function OperatorMatcher(token: string): (r: Result<OperatorType, BuildError>)
    ensures r.Success? <==> token in {"==", ">=", "<=", "!="}
    ensures r.Failure? ==> r.error == UnknownOperator(token)
    ensures r.Success? ==> r.value in {Equal, GreaterThanOrEqual, LessThanOrEqual, NotEqual}
  {
    if token in OperatorMatcherTable then Success(OperatorMatcherTable[token]) else Failure(UnknownOperator(token))
  }

  /** The symbol that spells an operator in a collection clause, for the four that have one. */
  function SymbolOf(op: OperatorType): Option<string> {
    match op
    case Equal => Some("==")
    case GreaterThanOrEqual => Some(">=")
    case LessThanOrEqual => Some("<=")
    case NotEqual => Some("!=")
    case _ => None
  }

  /**
   * The table is a bijection between the four symbols and the four operators
   * that have one: matching a symbol and spelling an operator are inverse,
   * and `>`, `<` and `Contains` cannot be written in a clause.
   */
  lemma OperatorMatcherInverse(token: string, op: OperatorType)
    ensures OperatorMatcher(token) == Success(op) <==> SymbolOf(op) == Some(token)
    ensures op in {GreaterThan, LessThan, Contains} ==> OperatorMatcher(token) != Success(op)
  {
  }

  // ---------------------------------------------------------------------------
  // The collection mini-language

  /** A path segment is a collection clause when it starts with `[` and ends with `]`. */
  predicate IsCollectionProperty(segment: string) {
    |segment| > 0 && segment[0] == '[' && segment[|segment| - 1] == ']'
  }

  /** The five tokens of `[Collection | Method | Field Op ModelField]`. */
  datatype CollectionClause = CollectionClause(
    collection: string,
    linqMethod: string,
    field: string,
    symbol: string,
    modelField: string)

  /**
   * Strips the brackets, splits on `|` into exactly three parts, trims the
   * first two, and splits the trimmed third part on single spaces into
   * exactly three tokens, kept as they are.
   */
  function Tokenize(segment: string): (r: Result<CollectionClause, BuildError>)
    ensures Text.Occurrences(Text.TrimBrackets(segment), '|') != 2 ==> r == Failure(TokenFormat(segment))
  {
    var inner := Text.TrimBrackets(segment);
    Text.SplitCount(inner, '|');
    var tokens := Text.Split(inner, '|');
    if |tokens| != 3 then Failure(TokenFormat(segment))
    else
      var compare := Text.Split(Text.Trim(tokens[2]), ' ');
      if |compare| != 3 then Failure(TokenFormat(tokens[2]))
      else Success(CollectionClause(Text.Trim(tokens[0]), Text.Trim(tokens[1]), compare[0], compare[1], compare[2]))
  }

  /**
   * A successful tokenization saw exactly two bars; no token it returns holds
   * a bar, and the three comparison tokens hold no space.
   */
  lemma TokenizeShape(segment: string)
    requires Tokenize(segment).Success?
    ensures Text.Occurrences(Text.TrimBrackets(segment), '|') == 2
    ensures var c := Tokenize(segment).value;
      && '|' !in c.collection && '|' !in c.linqMethod
      && '|' !in c.field && '|' !in c.symbol && '|' !in c.modelField
      && ' ' !in c.field && ' ' !in c.symbol && ' ' !in c.modelField
  {
    var tokens := Text.Split(Text.TrimBrackets(segment), '|');
    assert forall i :: 0 <= i < 3 ==> '|' !in tokens[i];
    Text.TrimWithin(tokens[0], Text.IsWhiteSpace);
    Text.TrimWithin(tokens[1], Text.IsWhiteSpace);
    Text.TrimWithin(tokens[2], Text.IsWhiteSpace);
    Text.SplitPiecesWithin(Text.Trim(tokens[2]), ' ');
  }

  /** The comparison part must hold exactly two spaces after trimming: a doubled space makes an empty token. */
  lemma TokenizeCountsSpaces(segment: string)
    requires Text.Occurrences(Text.TrimBrackets(segment), '|') == 2
    ensures |Text.Split(Text.TrimBrackets(segment), '|')| == 3
    ensures var third := Text.Split(Text.TrimBrackets(segment), '|')[2];
      Tokenize(segment).Success? <==> Text.Occurrences(Text.Trim(third), ' ') == 2
  {
    Text.SplitCount(Text.TrimBrackets(segment), '|');
    Text.SplitCount(Text.Trim(Text.Split(Text.TrimBrackets(segment), '|')[2]), ' ');
  }

  /** A token the mini-language can carry: non-empty, with no white space, no `|`, no bracket and no `.`. */
  predicate IsWord(w: string) {
    |w| > 0 && forall i :: 0 <= i < |w| ==> !Text.IsWhiteSpace(w[i]) && w[i] !in "|[]."
  }

  predicate WellFormed(c: CollectionClause) {
    IsWord(c.collection) && IsWord(c.linqMethod) && IsWord(c.field) && IsWord(c.symbol) && IsWord(c.modelField)
  }

  /** A segment written `[collection | method | comparison]`, one space around each bar. */
  function Spell(collection: string, linqMethod: string, comparison: string): string {
    "[" + collection + " | " + linqMethod + " | " + comparison + "]"
  }

  /** The canonical spelling of a clause: `[Collection | Method | Field Op ModelField]`. */
  function Render(c: CollectionClause): string {
    Spell(c.collection, c.linqMethod, c.field + " " + c.symbol + " " + c.modelField)
  }

  /** Comparison text the spelling can carry: no `|`, and word characters at both ends. */
  predicate IsComparison(comparison: string) {
    && |comparison| > 0 && '|' !in comparison
    && !Text.IsWhiteSpace(comparison[0]) && comparison[0] !in "[]"
    && !Text.IsWhiteSpace(comparison[|comparison| - 1]) && comparison[|comparison| - 1] !in "[]"
  }

  /**
   * A spelled segment tokenizes to its collection and method, and to the
   * single-space split of its comparison, which must have exactly three parts.
   */
  lemma TokenizeSpelled(collection: string, linqMethod: string, comparison: string)
    requires IsWord(collection) && IsWord(linqMethod) && IsComparison(comparison)
    ensures var parts := Text.Split(comparison, ' ');
      Tokenize(Spell(collection, linqMethod, comparison)) ==
        if |parts| != 3 then Failure(TokenFormat(" " + comparison))
        else Success(CollectionClause(collection, linqMethod, parts[0], parts[1], parts[2]))
  {
    var segment := Spell(collection, linqMethod, comparison);
    var tokens := [collection + " ", " " + linqMethod + " ", " " + comparison];
    assert Text.Split(Text.TrimBrackets(segment), '|') == tokens by {
      SpelledPieces(collection, linqMethod, comparison);
    }
    assert Text.Trim(tokens[0]) == collection by {
      TrimWordThenSpace(collection);
    }
    assert Text.Trim(tokens[1]) == linqMethod by {
      TrimSpaceWordSpace(linqMethod);
    }
    assert Text.Trim(tokens[2]) == comparison by {
      TrimSpaceThenText(comparison);
    }
    TokenizePieces(segment, tokens);
  }

  /** Tokenizing text whose bracket-trimmed form splits on `|` into three given pieces. */
  lemma TokenizePieces(segment: string, tokens: seq<string>)
    requires Text.Split(Text.TrimBrackets(segment), '|') == tokens && |tokens| == 3
    ensures var parts := Text.Split(Text.Trim(tokens[2]), ' ');
      Tokenize(segment) ==
        if |parts| != 3 then Failure(TokenFormat(tokens[2]))
        else Success(CollectionClause(Text.Trim(tokens[0]), Text.Trim(tokens[1]), parts[0], parts[1], parts[2]))
  {
  }

  /** A spelled segment is recognised as a collection segment. */
  lemma SpelledIsCollection(collection: string, linqMethod: string, comparison: string)
    ensures IsCollectionProperty(Spell(collection, linqMethod, comparison))
  {
    var s := Spell(collection, linqMethod, comparison);
    assert s[0] == '[';
    assert s[|s| - 1] == ']';
  }

  /** The three `|`-separated pieces of a spelled segment, brackets stripped. */
  lemma SpelledPieces(collection: string, linqMethod: string, comparison: string)
    requires IsWord(collection) && IsWord(linqMethod) && IsComparison(comparison)
    ensures Text.Split(Text.TrimBrackets(Spell(collection, linqMethod, comparison)), '|') ==
      [collection + " ", " " + linqMethod + " ", " " + comparison]
  {
    var inner := SpelledInner(collection, linqMethod, comparison);
    BracketsAround(inner);
    var first, second, third := collection + " ", " " + linqMethod + " ", " " + comparison;
    WordLacks(collection, '|');
    WordLacks(linqMethod, '|');
    assert '|' !in first && '|' !in second && '|' !in third;
    Text.SplitWithout(third, '|');
    Text.SplitAfter(second, third, '|');
    Text.SplitAfter(first, second + "|" + third, '|');
  }

  /** A spelled segment is its inner text in one pair of brackets. */
  lemma SpelledInner(collection: string, linqMethod: string, comparison: string) returns (inner: string)
    requires IsWord(collection) && IsComparison(comparison)
    ensures Spell(collection, linqMethod, comparison) == "[" + inner + "]"
    ensures inner == (collection + " ") + "|" + ((" " + linqMethod + " ") + "|" + (" " + comparison))
    ensures |inner| > 0 && inner[0] !in "[]" && inner[|inner| - 1] !in "[]"
  {
    inner := (collection + " ") + "|" + ((" " + linqMethod + " ") + "|" + (" " + comparison));
    assert inner[0] == collection[0];
    assert inner[|inner| - 1] == comparison[|comparison| - 1];
  }

  /** Tokenizing the canonical spelling of a well-formed clause gives the clause back. */
  lemma TokenizeRender(c: CollectionClause)
    requires WellFormed(c)
    ensures IsCollectionProperty(Render(c))
    ensures Tokenize(Render(c)) == Success(c)
  {
    var comparison := c.field + " " + c.symbol + " " + c.modelField;
    ComparisonOfWords(c.field, " " + c.symbol + " ", c.modelField);
    TokenizeSpelled(c.collection, c.linqMethod, comparison);
    SpelledIsCollection(c.collection, c.linqMethod, comparison);
    CompareTokens(c);
  }

  /** Words joined by a `|`-free middle form comparison text. */
  lemma ComparisonOfWords(a: string, middle: string, b: string)
    requires IsWord(a) && IsWord(b) && '|' !in middle
    ensures IsComparison(a + middle + b)
  {
    var t := a + middle + b;
    assert t[0] == a[0] && t[|t| - 1] == b[|b| - 1];
    WordLacks(a, '|');
    WordLacks(b, '|');
  }

  lemma TrimWordThenSpace(w: string)
    requires |w| > 0 && !Text.IsWhiteSpace(w[0]) && !Text.IsWhiteSpace(w[|w| - 1])
    ensures Text.Trim(w + " ") == w
  {
    Text.TrimPadded("", w, " ");
    assert "" + w + " " == w + " ";
  }

  lemma TrimSpaceWordSpace(w: string)
    requires |w| > 0 && !Text.IsWhiteSpace(w[0]) && !Text.IsWhiteSpace(w[|w| - 1])
    ensures Text.Trim(" " + w + " ") == w
  {
    Text.TrimPadded(" ", w, " ");
  }

  lemma TrimSpaceThenText(w: string)
    requires |w| > 0 && !Text.IsWhiteSpace(w[0]) && !Text.IsWhiteSpace(w[|w| - 1])
    ensures Text.Trim(" " + w) == w
  {
    Text.TrimPadded(" ", w, "");
    assert " " + w + "" == " " + w;
  }

  /** The comparison splits on single spaces into its three words. */
  lemma CompareTokens(c: CollectionClause)
    requires WellFormed(c)
    ensures Text.Split(c.field + " " + c.symbol + " " + c.modelField, ' ') == [c.field, c.symbol, c.modelField]
  {
    WordLacks(c.field, ' ');
    WordLacks(c.symbol, ' ');
    WordLacks(c.modelField, ' ');
    Text.SplitWithout(c.modelField, ' ');
    Text.SplitAfter(c.symbol, c.modelField, ' ');
    Text.SplitAfter(c.field, c.symbol + " " + c.modelField, ' ');
    assert c.field + " " + (c.symbol + " " + c.modelField) == c.field + " " + c.symbol + " " + c.modelField;
  }

  /** A word contains no separator, bracket or white space. */
  lemma WordLacks(w: string, ch: char)
    requires IsWord(w)
    requires ch in "|[]." || Text.IsWhiteSpace(ch)
    ensures ch !in w
  {
  }

  /** The bracket trim removes exactly the outer pair around text that starts and ends with a word character. */
  lemma BracketsAround(inner: string)
    requires |inner| > 0 && inner[0] !in "[]" && inner[|inner| - 1] !in "[]"
    ensures Text.TrimBrackets("[" + inner + "]") == inner
  {
    Text.TrimBothPadded("[", inner, "]", c => c == '[' || c == ']');
  }

  /** A doubled space inside the comparison makes an empty token, so the segment is rejected. */
  lemma DoubledSpaceRejected(c: CollectionClause)
    requires WellFormed(c)
    ensures Tokenize(Spell(c.collection, c.linqMethod, c.field + "  " + c.symbol + " " + c.modelField)).Failure?
  {
    var comparison := c.field + "  " + c.symbol + " " + c.modelField;
    assert IsComparison(comparison) by {
      ComparisonOfWords(c.field, "  " + c.symbol + " ", c.modelField);
    }
    TokenizeSpelled(c.collection, c.linqMethod, comparison);
    assert |Text.Split(comparison, ' ')| == 4 by {
      DoubledSplit(c.field, c.symbol, c.modelField);
    }
  }

  /** Words joined by a double and a single space split into four pieces, one of them empty. */
  lemma DoubledSplit(a: string, b: string, d: string)
    requires IsWord(a) && IsWord(b) && IsWord(d)
    ensures Text.Split(a + "  " + b + " " + d, ' ') == [a, "", b, d]
  {
    WordLacks(a, ' ');
    WordLacks(b, ' ');
    WordLacks(d, ' ');
    Text.SplitWithout(d, ' ');
    Text.SplitAfter(b, d, ' ');
    assert Text.Split(b + " " + d, ' ') == [b, d];
    Text.SplitAfter("", b + " " + d, ' ');
    assert "" + " " + (b + " " + d) == " " + b + " " + d;
    assert Text.Split(" " + b + " " + d, ' ') == ["", b, d];
    Text.SplitAfter(a, " " + b + " " + d, ' ');
    assert a + " " + (" " + b + " " + d) == a + "  " + b + " " + d;
  }

  /** The name of each supported `Enumerable` method. */
  function MethodName(q: Quantifier): string {
    match q
    case Any => "Any"
    case All => "All"
    case Count => "Count"
    case First => "First"
    case FirstOrDefault => "FirstOrDefault"
  }

  /** The `Enumerable` method a clause names, from the closed set this model supports. */
  function ParseQuantifier(name: string): (r: Option<Quantifier>)
    ensures r.Some? <==> name in {"Any", "All", "Count", "First", "FirstOrDefault"}
    ensures r.Some? ==> MethodName(r.value) == name
  {
    match name
    case "Any" => Some(Any)
    case "All" => Some(All)
    case "Count" => Some(Count)
    case "First" => Some(First)
    case "FirstOrDefault" => Some(FirstOrDefault)
    case _ => None
  }

  /** The type of the quantifier call: boolean, a count, or the element itself. */
  function QuantifierType(q: Quantifier, element: Ty): Ty {
    match q
    case Any => Boolean
    case All => Boolean
    case Count => Int32
    case First => element
    case FirstOrDefault => element
  }

  /**
   * A collection segment on expression `e` of type `t`: the collection must be
   * an `ICollection<T>` property of `t`, the field a property of `T`, the
   * model field a property of the model (public or not), the symbol one of the
   * table's and the method a supported one, checked in that order. The result
   * is the call `Method(e.Collection, x => x.Field Op modelValue)` and its type.
   */
  function CollectionSegment(schema: Schema, model: Model, e: Expr, t: Ty, segment: string): Result<(Expr, Ty), BuildError> {
    var clause :- Tokenize(segment);
    ClauseSegment(schema, model, e, t, clause)
  }

  /** The lookups and the call of a tokenized collection clause. */
  function ClauseSegment(schema: Schema, model: Model, e: Expr, t: Ty, clause: CollectionClause): Result<(Expr, Ty), BuildError> {
    var collectionType := PropertyType(schema, t, clause.collection);
    if collectionType.None? then Failure(MissingProperty(clause.collection, t))
    else if !collectionType.value.CollectionOf? then Failure(NotACollection(clause.collection, t))
    else
      var element := collectionType.value.element;
      if PropertyType(schema, element, clause.field).None? then Failure(MissingProperty(clause.field, element))
      else
        var modelValue := FindValue(model, clause.modelField);
        if modelValue.None? then Failure(MissingModelProperty(clause.modelField))
        else
          var op :- OperatorMatcher(clause.symbol);
          var quantifier := ParseQuantifier(clause.linqMethod);
          if quantifier.None? then Failure(UnknownMethod(clause.linqMethod))
          else
            var test := ApplyOperatorType(Property(Parameter, clause.field), modelValue.value, op);
            Success((Call(quantifier.value, Property(e, clause.collection), test), QuantifierType(quantifier.value, element)))
  }

  /** `ParseCollectionToExpression`: builds a collection segment step by step. */
  method ParseCollectionToExpression(schema: Schema, model: Model, e: Expr, t: Ty, segment: string)
    returns (r: Result<(Expr, Ty), BuildError>)
    ensures r == CollectionSegment(schema, model, e, t, segment)
  {
    var tokens := Tokenize(segment);
    if tokens.Failure? {
      return Failure(tokens.error);
    }
    var clause := tokens.value;
    var expression := e;
    var sourceType := t;
    var info := PropertyType(schema, sourceType, clause.collection);
    if info.None? {
      return Failure(MissingProperty(clause.collection, sourceType));
    }
    if !info.value.CollectionOf? {
      return Failure(NotACollection(clause.collection, sourceType));
    }
    expression := Property(expression, clause.collection);
    sourceType := info.value.element;
    var nestedInfo := PropertyType(schema, sourceType, clause.field);
    if nestedInfo.None? {
      return Failure(MissingProperty(clause.field, sourceType));
    }
    var nestedExpression := Property(Parameter, clause.field);
    var modelProp := FindValue(model, clause.modelField);
    if modelProp.None? {
      return Failure(MissingModelProperty(clause.modelField));
    }
    var op := OperatorMatcher(clause.symbol);
    if op.Failure? {
      return Failure(op.error);
    }
    nestedExpression := ApplyOperatorType(nestedExpression, modelProp.value, op.value);
    var quantifier := ParseQuantifier(clause.linqMethod);
    if quantifier.None? {
      return Failure(UnknownMethod(clause.linqMethod));
    }
    expression := Call(quantifier.value, expression, nestedExpression);
    return Success((expression, QuantifierType(quantifier.value, sourceType)));
  }

  /** The clause's test read on one element: the element's field against the model value. */
  function ClauseOn(op: OperatorType, field: string, modelValue: Value, element: Value): Option<bool> {
    match Navigate(element, [field])
    case None => None
    case Some(a) => Satisfies(op, a, modelValue)
  }

  /**
   * A clause resolves exactly when every lookup succeeds; it then reads the
   * collection off `e`, tests each element with the clause, and its type is
   * the element type for `First`/`FirstOrDefault` (so the path continues on
   * the element), boolean for `Any`/`All`, a count for `Count`.
   */
  lemma ClauseSegmentMeaning(schema: Schema, model: Model, e: Expr, t: Ty, c: CollectionClause)
    ensures var r := ClauseSegment(schema, model, e, t, c);
      var ct := PropertyType(schema, t, c.collection);
      && (r.Success? <==>
            && ct.Some? && ct.value.CollectionOf?
            && PropertyType(schema, ct.value.element, c.field).Some?
            && FindValue(model, c.modelField).Some?
            && OperatorMatcher(c.symbol).Success?
            && ParseQuantifier(c.linqMethod).Some?)
      && (r.Success? ==>
            var op := OperatorMatcher(c.symbol).value;
            var mv := FindValue(model, c.modelField).value;
            && r.value.0.Call?
            && r.value.0.quantifier == ParseQuantifier(c.linqMethod).value
            && r.value.0.source == Property(e, c.collection)
            && (forall y :: Eval(r.value.0.test, y) == Outcome(ClauseOn(op, c.field, mv, y)))
            && r.value.1 == QuantifierType(r.value.0.quantifier, ct.value.element))
  {
    var r := ClauseSegment(schema, model, e, t, c);
    if r.Success? {
      var op := OperatorMatcher(c.symbol).value;
      var mv := FindValue(model, c.modelField).value;
      assert r.value.0.test == ApplyOperatorType(Property(Parameter, c.field), mv, op);
      forall y ensures Eval(r.value.0.test, y) == Outcome(ClauseOn(op, c.field, mv, y)) {
        ApplyOperatorMeaning(Property(Parameter, c.field), mv, op, y);
        assert Eval(Property(Parameter, c.field), y) == Navigate(y, [c.field]);
      }
    }
  }

  /**
   * An `Any` clause on a collection whose elements the clause's test decides:
   * true exactly when some element satisfies the test.
   */
  lemma AnyClauseMeaning(schema: Schema, model: Model, e: Expr, t: Ty, c: CollectionClause, x: Value, xs: seq<Value>)
    requires c.linqMethod == "Any"
    requires ClauseSegment(schema, model, e, t, c).Success?
    requires Eval(Property(e, c.collection), x) == Some(Items(xs))
    requires forall i :: 0 <= i < |xs| ==>
      ClauseOn(OperatorMatcher(c.symbol).value, c.field, FindValue(model, c.modelField).value, xs[i]).Some?
    ensures var op := OperatorMatcher(c.symbol).value;
      var mv := FindValue(model, c.modelField).value;
      Eval(ClauseSegment(schema, model, e, t, c).value.0, x) ==
        Some(Bool(exists i :: 0 <= i < |xs| && ClauseOn(op, c.field, mv, xs[i]) == Some(true)))
  {
    var op := OperatorMatcher(c.symbol).value;
    var mv := FindValue(model, c.modelField).value;
    ClauseSegmentMeaning(schema, model, e, t, c);
    var ce := ClauseSegment(schema, model, e, t, c).value.0;
    assert forall i :: 0 <= i < |xs| ==> Eval(ce.test, xs[i]) == Outcome(ClauseOn(op, c.field, mv, xs[i]));
    AnyMeaning(ce.source, ce.test, x, xs);
    assert ce == Call(Any, ce.source, ce.test);
  }

  // ---------------------------------------------------------------------------
  // Path resolution

  /** One segment: a collection clause, or a property the current type must have. */
  function ResolveSegment(schema: Schema, model: Model, e: Expr, t: Ty, segment: string): Result<(Expr, Ty), BuildError> {
    if IsCollectionProperty(segment) then CollectionSegment(schema, model, e, t, segment)
    else match PropertyType(schema, t, segment)
      case None => Failure(MissingProperty(segment, t))
      case Some(u) => Success((Property(e, segment), u))
  }

  /** Resolves the segments left to right, each from the expression and type the previous one produced. */
  function ResolveSegments(schema: Schema, model: Model, e: Expr, t: Ty, segments: seq<string>): Result<(Expr, Ty), BuildError>
    decreases |segments|
  {
    if |segments| == 0 then Success((e, t))
    else
      var step :- ResolveSegment(schema, model, e, t, segments[0]);
      ResolveSegments(schema, model, step.0, step.1, segments[1..])
  }

  /** The expression for a dotted path on the entity, split on every `.`. */
  function NavigationPath(schema: Schema, model: Model, root: Ty, path: string): Result<(Expr, Ty), BuildError> {
    ResolveSegments(schema, model, Parameter, root, Text.Split(path, '.'))
  }

  /** `GetNavigationPropertyExpression`: the loop over the path's segments. */
  method GetNavigationPropertyExpression(schema: Schema, model: Model, root: Ty, propertyName: string)
    returns (r: Result<(Expr, Ty), BuildError>)
    ensures r == NavigationPath(schema, model, root, propertyName)
  {
    var props := Text.Split(propertyName, '.');
    var expression := Parameter;
    var sourceType := root;
    var i := 0;
    while i < |props|
      invariant 0 <= i <= |props|
      invariant NavigationPath(schema, model, root, propertyName) ==
        ResolveSegments(schema, model, expression, sourceType, props[i..])
    {
      var prop := props[i];
      assert props[i..][0] == prop && props[i..][1..] == props[i + 1..];
      ghost var step := ResolveSegment(schema, model, expression, sourceType, prop);
      assert ResolveSegments(schema, model, expression, sourceType, props[i..]) ==
        if step.Failure? then Failure(step.error)
        else ResolveSegments(schema, model, step.value.0, step.value.1, props[i + 1..]);
      if IsCollectionProperty(prop) {
        var parsed := ParseCollectionToExpression(schema, model, expression, sourceType, prop);
        if parsed.Failure? {
          return Failure(parsed.error);
        }
        expression, sourceType := parsed.value.0, parsed.value.1;
      } else {
        var info := PropertyType(schema, sourceType, prop);
        if info.None? {
          return Failure(MissingProperty(prop, sourceType));
        }
        expression := Property(expression, prop);
        sourceType := info.value;
      }
      i := i + 1;
    }
    return Success((expression, sourceType));
  }

  /** Without collection segments, resolution is the plain typed property walk. */
  lemma {:induction false} PlainPathIsWalk(schema: Schema, model: Model, e: Expr, t: Ty, segments: seq<string>)
    requires forall i :: 0 <= i < |segments| ==> !IsCollectionProperty(segments[i])
    ensures ResolveSegments(schema, model, e, t, segments) == WalkProperties(schema, e, t, segments)
    decreases |segments|
  {
    if |segments| > 0 {
      match PropertyType(schema, t, segments[0])
      case None =>
      case Some(u) =>
        assert forall i :: 1 <= i < |segments| ==> segments[i] == segments[1..][i - 1];
        PlainPathIsWalk(schema, model, Property(e, segments[0]), u, segments[1..]);
    }
  }

  /**
   * A `First` clause followed by `.Name` reads `Name` on the element the
   * clause selects: resolution continues from the element type.
   */
  lemma FirstThenProperty(schema: Schema, model: Model, root: Ty, c: CollectionClause, name: string)
    requires WellFormed(c) && c.linqMethod == "First" && IsWord(name)
    requires ClauseSegment(schema, model, Parameter, root, c).Success?
    ensures var (ce, ty) := ClauseSegment(schema, model, Parameter, root, c).value;
      && ty == PropertyType(schema, root, c.collection).value.element
      && NavigationPath(schema, model, root, Render(c) + "." + name) ==
           match PropertyType(schema, ty, name)
           case None => Failure(MissingProperty(name, ty))
           case Some(u) => Success((Property(ce, name), u))
  {
    TokenizeRender(c);
    ClauseSegmentMeaning(schema, model, Parameter, root, c);
    RenderThenName(c, name);
    var (ce, ty) := ClauseSegment(schema, model, Parameter, root, c).value;
    assert CollectionSegment(schema, model, Parameter, root, Render(c)) == Success((ce, ty));
    assert ResolveSegment(schema, model, Parameter, root, Render(c)) == Success((ce, ty));
    assert !IsCollectionProperty(name) by {
      assert name[|name| - 1] != ']';
    }
    var segs := [Render(c), name];
    assert segs[1..] == [name];
    assert ResolveSegments(schema, model, Parameter, root, segs) == ResolveSegments(schema, model, ce, ty, [name]);
    assert [name][1..] == [];
  }

  /** The canonical clause followed by `.name` splits into exactly those two segments. */
  lemma RenderThenName(c: CollectionClause, name: string)
    requires WellFormed(c) && IsWord(name)
    ensures Text.Split(Render(c) + "." + name, '.') == [Render(c), name]
  {
    var text := Render(c);
    assert forall i :: 0 <= i < |text| ==> text[i] != '.';
    Text.SplitWithout(name, '.');
    Text.SplitAfter(text, name, '.');
  }

  /**
   * A clause written with a `.` inside its brackets is cut in two by the
   * split on `.`; neither piece is recognised as a collection segment, so the
   * first piece is looked up as a plain property name.
   */
  lemma DottedClauseBreaks(schema: Schema, model: Model, root: Ty, a: string, b: string)
    requires '.' !in a && '.' !in b && ']' !in a && '[' !in b
    requires PropertyType(schema, root, "[" + a).None?
    ensures Text.Split("[" + a + "." + b + "]", '.') == ["[" + a, b + "]"]
    ensures !IsCollectionProperty("[" + a) && !IsCollectionProperty(b + "]")
    ensures NavigationPath(schema, model, root, "[" + a + "." + b + "]") == Failure(MissingProperty("[" + a, root))
  {
    assert '.' !in "[" + a;
    assert '.' !in b + "]";
    Text.SplitWithout(b + "]", '.');
    Text.SplitAfter("[" + a, b + "]", '.');
    assert "[" + a + "." + b + "]" == ("[" + a) + "." + (b + "]");
    var first := "[" + a;
    assert first[|first| - 1] != ']' by {
      if |a| > 0 { assert first[|first| - 1] == a[|a| - 1]; }
    }
  }

  // ---------------------------------------------------------------------------
  // The builders

  /** The `Where` predicate for one filter: the resolved path under the operator. */
  function WherePredicate(schema: Schema, model: Model, root: Ty, path: string, value: Value, op: OperatorType)
    : Result<Expr, BuildError>
  {
    var nav :- NavigationPath(schema, model, root, path);
    Success(ApplyOperatorType(nav.0, value, op))
  }

  /** `WhereExpressionBuilder`: composes one `Where` stage, or fails while resolving the path. */
  method WhereExpressionBuilder(schema: Schema, source: Query, root: Ty, propertyName: string, value: Value,
                                model: Model, op: OperatorType)
    returns (r: Result<Query, BuildError>)
    ensures r.Failure? <==> NavigationPath(schema, model, root, propertyName).Failure?
    ensures r.Failure? ==> r.error == NavigationPath(schema, model, root, propertyName).error
    ensures r.Success? ==> r.value == source.Then(Where(WherePredicate(schema, model, root, propertyName, value, op).value))
  {
    var expression := GetNavigationPropertyExpression(schema, model, root, propertyName);
    if expression.Failure? {
      return Failure(expression.error);
    }
    var condition := ApplyOperatorType(expression.value.0, value, op);
    return Success(source.Then(Where(condition)));
  }

  /**
   * On a plain path, the predicate holds of an entity exactly when the value
   * at the end of the path satisfies the operator against the filter value,
   * and throws when the path cannot be read.
   */
  lemma PlainWhereMeaning(schema: Schema, model: Model, root: Ty, path: string, value: Value, op: OperatorType, x: Value)
    requires forall i :: 0 <= i < |Text.Split(path, '.')| ==> !IsCollectionProperty(Text.Split(path, '.')[i])
    requires WherePredicate(schema, model, root, path, value, op).Success?
    ensures Eval(WherePredicate(schema, model, root, path, value, op).value, x) ==
      match Navigate(x, Text.Split(path, '.'))
      case None => None
      case Some(a) => Outcome(Satisfies(op, a, value))
  {
    var segments := Text.Split(path, '.');
    PlainPathIsWalk(schema, model, Parameter, root, segments);
    WalkEval(schema, Parameter, root, segments, x);
    ApplyOperatorMeaning(NavigationPath(schema, model, root, path).value.0, value, op, x);
  }

  /** `OrderByExpressionBuilder`: walks the dotted path, then orders ascending iff the direction is "asc". */
  method OrderByExpressionBuilder(schema: Schema, source: Query, root: Ty, propertyName: string, way: string)
    returns (r: Result<Query, BuildError>)
    ensures r == OrderByPath(schema, source, root, propertyName, way)
  {
    var props := Text.Split(propertyName, '.');
    var t := root;
    var orderByProperty := Parameter;
    var i := 0;
    while i < |props|
      invariant 0 <= i <= |props|
      invariant WalkProperties(schema, Parameter, root, props) == WalkProperties(schema, orderByProperty, t, props[i..])
    {
      var prop := props[i];
      assert props[i..][0] == prop && props[i..][1..] == props[i + 1..];
      WalkStep(schema, orderByProperty, t, props[i..]);
      var info := PropertyType(schema, t, prop);
      if info.None? {
        return Failure(MissingProperty(prop, t));
      }
      orderByProperty := Property(orderByProperty, prop);
      t := info.value;
      i := i + 1;
    }
    return Success(source.Then(OrderBy(orderByProperty, way == "asc")));
  }
}
