/** The grammar of detect strings, one level for each kind of operator, and that the compiled
    form has the value of its trees. */
module DetectGrammar {
  import opened DetectString

  /** An or-chain of and-chains of comparisons of operands and bracketed texts; chains lean to
      the left. */
  datatype Primary = Word(text: string) | Group(inner: Disjunction)
  datatype Comparison = Alone(primary: Primary) | Compare(before: Comparison, op: Operator, primary: Primary)
  datatype Conjunction = OneComparison(comparison: Comparison) | Both(left: Conjunction, right: Comparison)
  datatype Disjunction = OneConjunction(conjunction: Conjunction) | Either(left: Disjunction, right: Conjunction)

  predicate Compares(op: Operator) {
    op in {Equal, NotEqual, Less, More, Not}
  }

  predicate ProperPrimary(p: Primary) {
    p.Group? ==> ProperDisjunction(p.inner)
  }

  predicate ProperComparison(c: Comparison) {
    ProperPrimary(c.primary) && (c.Compare? ==> Compares(c.op) && ProperComparison(c.before))
  }

  predicate ProperConjunction(c: Conjunction) {
    match c
    case OneComparison(comparison) => ProperComparison(comparison)
    case Both(left, right) => ProperConjunction(left) && ProperComparison(right)
  }

  predicate ProperDisjunction(d: Disjunction) {
    match d
    case OneConjunction(conjunction) => ProperConjunction(conjunction)
    case Either(left, right) => ProperDisjunction(left) && ProperConjunction(right)
  }

  // ------------------------------------------------------------- text and value

  function PrimaryTokens(p: Primary): seq<Token> {
    match p
    case Word(text) => [Operand(text)]
    case Group(inner) => [LeftBracket] + DisjunctionTokens(inner) + [RightBracket]
  }

  function ComparisonTokens(c: Comparison): seq<Token> {
    match c
    case Alone(primary) => PrimaryTokens(primary)
    case Compare(before, op, primary) => ComparisonTokens(before) + [Op(op)] + PrimaryTokens(primary)
  }

  function ConjunctionTokens(c: Conjunction): seq<Token> {
    match c
    case OneComparison(comparison) => ComparisonTokens(comparison)
    case Both(left, right) => ConjunctionTokens(left) + [Op(And)] + ComparisonTokens(right)
  }

  function DisjunctionTokens(d: Disjunction): seq<Token> {
    match d
    case OneConjunction(conjunction) => ConjunctionTokens(conjunction)
    case Either(left, right) => DisjunctionTokens(left) + [Op(Or)] + ConjunctionTokens(right)
  }

  function PrimaryValue(apply: Calculate, p: Primary): string {
    match p
    case Word(text) => text
    case Group(inner) => DisjunctionValue(apply, inner)
  }

  function ComparisonValue(apply: Calculate, c: Comparison): string {
    match c
    case Alone(primary) => PrimaryValue(apply, primary)
    case Compare(before, op, primary) => apply(ComparisonValue(apply, before), PrimaryValue(apply, primary), op)
  }

  function ConjunctionValue(apply: Calculate, c: Conjunction): string {
    match c
    case OneComparison(comparison) => ComparisonValue(apply, comparison)
    case Both(left, right) => apply(ConjunctionValue(apply, left), ComparisonValue(apply, right), And)
  }

  function DisjunctionValue(apply: Calculate, d: Disjunction): string {
    match d
    case OneConjunction(conjunction) => ConjunctionValue(apply, conjunction)
    case Either(left, right) => apply(DisjunctionValue(apply, left), ConjunctionValue(apply, right), Or)
  }

  // ------------------------------------------- trees of the grammar as expressions

  function OfPrimary(p: Primary): Expr {
    match p
    case Word(text) => Leaf(text)
    case Group(inner) => Bracketed(OfDisjunction(inner))
  }

  function OfComparison(c: Comparison): Expr {
    match c
    case Alone(primary) => OfPrimary(primary)
    case Compare(before, op, primary) => Binary(op, OfComparison(before), OfPrimary(primary))
  }

  function OfConjunction(c: Conjunction): Expr {
    match c
    case OneComparison(comparison) => OfComparison(comparison)
    case Both(left, right) => Binary(And, OfConjunction(left), OfComparison(right))
  }

  function OfDisjunction(d: Disjunction): Expr {
    match d
    case OneConjunction(conjunction) => OfConjunction(conjunction)
    case Either(left, right) => Binary(Or, OfDisjunction(left), OfConjunction(right))
  }

  /** The expression of a tree is its text, its value, and a reading by priority. */
  ghost predicate Stands(apply: Calculate, e: Expr, tokens: seq<Token>, value: string, level: nat) {
    Shaped(e) && Level(e) >= level && Tokens(e) == tokens && Meaning(apply, e) == value
  }

  lemma {:induction false} PrimaryStands(apply: Calculate, p: Primary)
    requires ProperPrimary(p)
    ensures Stands(apply, OfPrimary(p), PrimaryTokens(p), PrimaryValue(apply, p), 3)
  {
    if p.Group? { DisjunctionStands(apply, p.inner); }
  }

  lemma {:induction false} ComparisonStands(apply: Calculate, c: Comparison)
    requires ProperComparison(c)
    ensures Stands(apply, OfComparison(c), ComparisonTokens(c), ComparisonValue(apply, c), 2)
  {
    PrimaryStands(apply, c.primary);
    if c.Compare? { ComparisonStands(apply, c.before); }
  }

  lemma {:induction false} ConjunctionStands(apply: Calculate, c: Conjunction)
    requires ProperConjunction(c)
    ensures Stands(apply, OfConjunction(c), ConjunctionTokens(c), ConjunctionValue(apply, c), 1)
  {
    match c
    case OneComparison(comparison) => ComparisonStands(apply, comparison);
    case Both(left, right) =>
      ConjunctionStands(apply, left);
      ComparisonStands(apply, right);
  }

  lemma {:induction false} DisjunctionStands(apply: Calculate, d: Disjunction)
    requires ProperDisjunction(d)
    ensures Stands(apply, OfDisjunction(d), DisjunctionTokens(d), DisjunctionValue(apply, d), 0)
  {
    match d
    case OneConjunction(conjunction) => ConjunctionStands(apply, conjunction);
    case Either(left, right) =>
      DisjunctionStands(apply, left);
      ConjunctionStands(apply, right);
  }

  // ----------------------------------------- readings are trees of the grammar

  function ToPrimary(e: Expr): Primary
    requires Shaped(e) && Level(e) >= 3
    decreases e, 0
  {
    if e.Bracketed? then Group(ToDisjunction(e.inner)) else Word(e.text)
  }

  function ToComparison(e: Expr): Comparison
    requires Shaped(e) && Level(e) >= 2
    decreases e, 1
  {
    if e.Binary? then Compare(ToComparison(e.left), e.op, ToPrimary(e.right)) else Alone(ToPrimary(e))
  }

  function ToConjunction(e: Expr): Conjunction
    requires Shaped(e) && Level(e) >= 1
    decreases e, 2
  {
    if e.Binary? && e.op.And? then Both(ToConjunction(e.left), ToComparison(e.right)) else OneComparison(ToComparison(e))
  }

  function ToDisjunction(e: Expr): Disjunction
    requires Shaped(e)
    decreases e, 3
  {
    if e.Binary? && e.op.Or? then Either(ToDisjunction(e.left), ToConjunction(e.right)) else OneConjunction(ToConjunction(e))
  }

  lemma {:induction false} PrimaryBack(e: Expr)
    requires Shaped(e) && Level(e) >= 3
    ensures ProperPrimary(ToPrimary(e)) && OfPrimary(ToPrimary(e)) == e
    decreases e, 0
  {
    if e.Bracketed? { DisjunctionBack(e.inner); }
  }

  lemma {:induction false} ComparisonBack(e: Expr)
    requires Shaped(e) && Level(e) >= 2
    ensures ProperComparison(ToComparison(e)) && OfComparison(ToComparison(e)) == e
    decreases e, 1
  {
    if e.Binary? {
      ComparisonBack(e.left);
      PrimaryBack(e.right);
    } else {
      PrimaryBack(e);
    }
  }

  lemma {:induction false} ConjunctionBack(e: Expr)
    requires Shaped(e) && Level(e) >= 1
    ensures ProperConjunction(ToConjunction(e)) && OfConjunction(ToConjunction(e)) == e
    decreases e, 2
  {
    if e.Binary? && e.op.And? {
      ConjunctionBack(e.left);
      ComparisonBack(e.right);
    } else {
      ComparisonBack(e);
    }
  }

  lemma {:induction false} DisjunctionBack(e: Expr)
    requires Shaped(e)
    ensures ProperDisjunction(ToDisjunction(e)) && OfDisjunction(ToDisjunction(e)) == e
    decreases e, 3
  {
    if e.Binary? && e.op.Or? {
      DisjunctionBack(e.left);
      ConjunctionBack(e.right);
    } else {
      ConjunctionBack(e);
    }
  }

  // ------------------------------------------------------------------ theorems

  /** The tokens of any tree of the grammar, with empty positions anywhere, compile to a form
      that has exactly the value of the tree. */
  lemma GrammarIsEvaluated(apply: Calculate, d: Disjunction, tokens: seq<Token>)
    requires ProperDisjunction(d) && Compact(tokens) == DisjunctionTokens(d)
    ensures Evaluate(apply, [], Converted(tokens)) == [DisjunctionValue(apply, d)]
  {
    var e := OfDisjunction(d);
    DisjunctionStands(apply, d);
    ConversionKeepsMeaning(apply, e, tokens);
    ReadingUnique(apply, Reading(e), e);
  }

  /** Every text of an expression is the text of a tree of the grammar, and all its trees have
      one value. */
  lemma EveryTextIsInGrammar(apply: Calculate, e: Expr)
    ensures exists d :: ProperDisjunction(d) && DisjunctionTokens(d) == Tokens(e)
    ensures forall a, b :: ProperDisjunction(a) && ProperDisjunction(b) && DisjunctionTokens(a) == DisjunctionTokens(b) ==>
      DisjunctionValue(apply, a) == DisjunctionValue(apply, b)
  {
    ReadingShaped(e);
    DisjunctionBack(Reading(e));
    DisjunctionStands(apply, ToDisjunction(Reading(e)));
    forall a, b | ProperDisjunction(a) && ProperDisjunction(b) && DisjunctionTokens(a) == DisjunctionTokens(b)
      ensures DisjunctionValue(apply, a) == DisjunctionValue(apply, b)
    {
      DisjunctionStands(apply, a);
      DisjunctionStands(apply, b);
      ReadingUnique(apply, OfDisjunction(a), OfDisjunction(b));
    }
  }
}
