/**
 Expressions of the agent's calculator: their meaning over an arbitrary arithmetic,
 and the grammar of their concrete text.

 A `Tree` is a derivation of the grammar that remembers every gap of spaces, so the
 text of a derivation is a plain function of it and "some spelling of `e`" is
 "the text of some well-formed tree that erases to `e`".
 */
module MathSyntax {
  import opened Options

  /** The errors the evaluator reports, one constructor per message. */
  datatype MathError =
    | UnexpectedEnd
    | UnexpectedCharacters(pos: nat)
    | ExpectedNumber(pos: nat)
    | BadNumber(text: string)
    | DivisionByZero
    | UnknownFunction(name: string)
    | UnknownIdentifier(name: string)
    | MissingParenAfter(name: string)
    | MissingParen

  datatype Result<+T> = Ok(value: T) | Err(error: MathError) {
    predicate IsFailure() { Err? }
    function PropagateFailure<U>(): Result<U> requires Err? { Err(error) }
    function Extract(): T requires Ok? { value }
  }

  /** The number operations the evaluator calls, left uninterpreted. `parse` is the
      library's conversion of a numeral; it may reject its argument. */
  datatype Arithmetic<!N> = Arithmetic(
    parse: string -> Option<N>,
    add: (N, N) -> N,
    sub: (N, N) -> N,
    mul: (N, N) -> N,
    div: (N, N) -> N,
    mod: (N, N) -> N,
    pow: (N, N) -> N,
    neg: N -> N,
    isZero: N -> bool,
    pi: N,
    e: N,
    apply: (string, N) -> N
  )

  const FUNCTIONS: set<string> :=
    {"sqrt", "abs", "ceil", "floor", "round", "log", "log2", "log10", "sin", "cos", "tan", "exp"}

  datatype Op = Add | Sub | Mul | Div | Mod {
    function Symbol(): char {
      match this
      case Add => '+'
      case Sub => '-'
      case Mul => '*'
      case Div => '/'
      case Mod => '%'
    }

    /** The grammar level the operator lives at: sums are level 0, products level 1. */
    function Level(): nat {
      if Add? || Sub? then 0 else 1
    }
  }

  datatype Expr =
    | Lit(text: string)
    | Constant(name: string)
    | Apply(name: string, arg: Expr)
    | Signed(minus: bool, operand: Expr)
    | Power(base: Expr, exponent: Expr)
    | Binary(op: Op, left: Expr, right: Expr)

  function Combine<N>(a: Arithmetic<N>, op: Op, x: N, y: N): Result<N> {
    match op
    case Add => Ok(a.add(x, y))
    case Sub => Ok(a.sub(x, y))
    case Mul => Ok(a.mul(x, y))
    case Div => if a.isZero(y) then Err(DivisionByZero) else Ok(a.div(x, y))
    case Mod => Ok(a.mod(x, y))
  }

  function ValueOfName<N>(a: Arithmetic<N>, name: string): Result<N> {
    if name == "pi" then Ok(a.pi)
    else if name == "e" then Ok(a.e)
    else Err(UnknownIdentifier(name))
  }

  function ValueOfNumeral<N>(a: Arithmetic<N>, text: string): Result<N> {
    match a.parse(text)
    case None => Err(BadNumber(text))
    case Some(v) => Ok(v)
  }

  function ValueOfCall<N>(a: Arithmetic<N>, name: string, x: Result<N>): Result<N> {
    var v :- x;
    if name in FUNCTIONS then Ok(a.apply(name, v)) else Err(UnknownFunction(name))
  }

  function ValueOfSigned<N>(a: Arithmetic<N>, minus: bool, x: Result<N>): Result<N> {
    var v :- x;
    Ok(if minus then a.neg(v) else v)
  }

  function ValueOfPower<N>(a: Arithmetic<N>, x: Result<N>, y: Result<N>): Result<N> {
    var base :- x;
    var exponent :- y;
    Ok(a.pow(base, exponent))
  }

  function ValueOfBinary<N>(a: Arithmetic<N>, op: Op, x: Result<N>, y: Result<N>): Result<N> {
    var left :- x;
    var right :- y;
    Combine(a, op, left, right)
  }

  /** The reference meaning: operands from left to right, first failure wins. */
  function Eval<N>(a: Arithmetic<N>, e: Expr): Result<N> {
    match e
    case Lit(text) => ValueOfNumeral(a, text)
    case Constant(name) => ValueOfName(a, name)
    case Apply(name, arg) => ValueOfCall(a, name, Eval(a, arg))
    case Signed(minus, operand) => ValueOfSigned(a, minus, Eval(a, operand))
    case Power(base, exponent) => ValueOfPower(a, Eval(a, base), Eval(a, exponent))
    case Binary(op, left, right) => ValueOfBinary(a, op, Eval(a, left), Eval(a, right))
  }

  // ----- characters and numerals

  predicate IsLower(c: char) { 'a' <= c <= 'z' }

  predicate IsDigit(c: char) { '0' <= c <= '9' || c == '.' }

  predicate IsSign(c: char) { c == '-' || c == '+' }

  predicate LowerWord(w: string) { w != [] && forall i :: 0 <= i < |w| ==> IsLower(w[i]) }

  predicate DigitWord(w: string) { w != [] && forall i :: 0 <= i < |w| ==> IsDigit(w[i]) }

  /** A numeral token: an optional sign and then digits and points, not both empty. */
  predicate Numeral(w: string) {
    && w != []
    && (IsSign(w[0]) || IsDigit(w[0]))
    && forall i :: 1 <= i < |w| ==> IsDigit(w[i])
  }

  // ----- derivations

  datatype Tree =
    | Num(gap: nat, text: string)
    | Name(gap: nat, name: string)
    | Call(gap: nat, name: string, gapOpen: nat, arg: Tree, gapClose: nat)
    | Paren(gap: nat, inner: Tree, gapClose: nat)
    | Sign(gap: nat, minus: bool, operand: Tree)
    | Pow(base: Tree, gap: nat, exponent: Tree)
    | Bin(left: Tree, gap: nat, op: Op, right: Tree)

  /** `t` is a derivation from the nonterminal of level `k`: 0 sums, 1 products, 2 powers,
      3 signed atoms, 4 atoms. Sums and products associate to the left, a power takes
      exactly one exponent, and a sign binds tighter than a power. A numeral may carry
      its own sign only directly under a sign. */
  predicate Derives(t: Tree, k: nat) {
    match t
    case Num(_, text) => Numeral(text) && (k <= 3 ==> !IsSign(text[0]))
    case Name(_, name) => LowerWord(name)
    case Call(_, name, _, arg, _) => LowerWord(name) && Derives(arg, 0)
    case Paren(_, inner, _) => Derives(inner, 0)
    case Sign(_, _, operand) => k <= 3 && Derives(operand, 4)
    case Pow(base, _, exponent) => k <= 2 && Derives(base, 3) && Derives(exponent, 3)
    case Bin(left, _, op, right) =>
      k <= op.Level() && Derives(left, op.Level()) && Derives(right, op.Level() + 1)
  }

  function Spaces(n: nat): (w: string)
    ensures |w| == n && forall i :: 0 <= i < n ==> w[i] == ' '
  {
    seq(n, _ => ' ')
  }

  function SignChar(minus: bool): char { if minus then '-' else '+' }

  function Text(t: Tree): string {
    match t
    case Num(gap, text) => Spaces(gap) + text
    case Name(gap, name) => Spaces(gap) + name
    case Call(gap, name, gapOpen, arg, gapClose) =>
      Spaces(gap) + (name + (Spaces(gapOpen) + ("(" + (Text(arg) + (Spaces(gapClose) + ")")))))
    case Paren(gap, inner, gapClose) =>
      Spaces(gap) + ("(" + (Text(inner) + (Spaces(gapClose) + ")")))
    case Sign(gap, minus, operand) => Spaces(gap) + ([SignChar(minus)] + Text(operand))
    case Pow(base, gap, exponent) => Text(base) + (Spaces(gap) + ("^" + Text(exponent)))
    case Bin(left, gap, op, right) => Text(left) + (Spaces(gap) + ([op.Symbol()] + Text(right)))
  }

  function Erase(t: Tree): Expr {
    match t
    case Num(_, text) => Lit(text)
    case Name(_, name) => Constant(name)
    case Call(_, name, _, arg, _) => Apply(name, Erase(arg))
    case Paren(_, inner, _) => Erase(inner)
    case Sign(_, minus, operand) => Signed(minus, Erase(operand))
    case Pow(base, _, exponent) => Power(Erase(base), Erase(exponent))
    case Bin(left, _, op, right) => Binary(op, Erase(left), Erase(right))
  }

  // ----- printing with the fewest parentheses

  /** Expressions with a spelling: unsigned numerals and purely alphabetic names. */
  predicate Printable(e: Expr) {
    match e
    case Lit(text) => DigitWord(text)
    case Constant(name) => LowerWord(name)
    case Apply(name, arg) => LowerWord(name) && Printable(arg)
    case Signed(_, operand) => Printable(operand)
    case Power(base, exponent) => Printable(base) && Printable(exponent)
    case Binary(_, left, right) => Printable(left) && Printable(right)
  }

  function NaturalLevel(e: Expr): nat {
    match e
    case Lit(_) => 4
    case Constant(_) => 4
    case Apply(_, _) => 4
    case Signed(_, _) => 3
    case Power(_, _) => 2
    case Binary(op, _, _) => op.Level()
  }

  /** The derivation of `e` at level `k` that adds parentheses only where `e` is too loose. */
  function Layout(e: Expr, k: nat): Tree
    decreases e, if NaturalLevel(e) < k then 1 else 0
  {
    if NaturalLevel(e) < k then Paren(0, Layout(e, 0), 0)
    else
      match e
      case Lit(text) => Num(0, text)
      case Constant(name) => Name(0, name)
      case Apply(name, arg) => Call(0, name, 0, Layout(arg, 0), 0)
      case Signed(minus, operand) => Sign(0, minus, Layout(operand, 4))
      case Power(base, exponent) => Pow(Layout(base, 3), 0, Layout(exponent, 3))
      case Binary(op, left, right) =>
        Bin(Layout(left, op.Level()), 0, op, Layout(right, op.Level() + 1))
  }

  function Parens(t: Tree): nat {
    match t
    case Num(_, _) => 0
    case Name(_, _) => 0
    case Call(_, _, _, arg, _) => Parens(arg)
    case Paren(_, inner, _) => 1 + Parens(inner)
    case Sign(_, _, operand) => Parens(operand)
    case Pow(base, _, exponent) => Parens(base) + Parens(exponent)
    case Bin(left, _, _, right) => Parens(left) + Parens(right)
  }

  /** Every printable expression has a spelling at every level, which reads back as it. */
  lemma {:induction false} LayoutIsFaithful(e: Expr, k: nat)
    requires Printable(e) && k <= 4
    ensures Derives(Layout(e, k), k)
    ensures Erase(Layout(e, k)) == e
    decreases e, if NaturalLevel(e) < k then 1 else 0
  {
    if NaturalLevel(e) < k {
      LayoutIsFaithful(e, 0);
    } else {
      match e
      case Lit(text) =>
      case Constant(name) =>
      case Apply(name, arg) => LayoutIsFaithful(arg, 0);
      case Signed(minus, operand) => LayoutIsFaithful(operand, 4);
      case Power(base, exponent) => LayoutIsFaithful(base, 3); LayoutIsFaithful(exponent, 3);
      case Binary(op, left, right) =>
        LayoutIsFaithful(left, op.Level());
        LayoutIsFaithful(right, op.Level() + 1);
    }
  }

  lemma LayoutLevels(e: Expr, k: nat)
    ensures Parens(Layout(e, k)) == Parens(Layout(e, 0)) + if NaturalLevel(e) < k then 1 else 0
  {
  }

  /** No spelling of the same expression at the same level has fewer parentheses. */
  lemma {:induction false} LayoutIsMinimal(t: Tree, k: nat)
    requires Derives(t, k) && k <= 4
    ensures Parens(Layout(Erase(t), k)) <= Parens(t)
  {
    LayoutLevels(Erase(t), k);
    match t
    case Num(_, _) =>
    case Name(_, _) =>
    case Call(_, _, _, arg, _) => LayoutIsMinimal(arg, 0);
    case Paren(_, inner, _) => LayoutIsMinimal(inner, 0);
    case Sign(_, _, operand) => LayoutIsMinimal(operand, 4);
    case Pow(base, _, exponent) => LayoutIsMinimal(base, 3); LayoutIsMinimal(exponent, 3);
    case Bin(left, _, op, right) =>
      LayoutIsMinimal(left, op.Level());
      LayoutIsMinimal(right, op.Level() + 1);
  }
}
