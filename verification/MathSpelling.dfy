/**
 Completeness of the evaluator: whatever well-formed derivation spells the input, with whatever
 gaps, the evaluator returns the value (or the error) of the expression it erases to.
 */
module MathSpelling {
  import opened Options
  import opened MathSyntax
  import opened MathParsing

  // ----- where a derivation lies in the input

  predicate Gap(s: string, p: nat, g: nat) {
    p + g <= |s| && forall i :: p <= i < p + g ==> s[i] == ' '
  }

  predicate Word(s: string, p: nat, w: string) {
    p + |w| <= |s| && s[p..p + |w|] == w
  }

  predicate CharAt(s: string, p: nat, c: char) {
    p < |s| && s[p] == c
  }

  function Size(t: Tree): nat {
    match t
    case Num(gap, text) => gap + |text|
    case Name(gap, name) => gap + |name|
    case Call(gap, name, gapOpen, arg, gapClose) => gap + |name| + gapOpen + 1 + Size(arg) + gapClose + 1
    case Paren(gap, inner, gapClose) => gap + 1 + Size(inner) + gapClose + 1
    case Sign(gap, _, operand) => gap + 1 + Size(operand)
    case Pow(base, gap, exponent) => Size(base) + gap + 1 + Size(exponent)
    case Bin(left, gap, _, right) => Size(left) + gap + 1 + Size(right)
  }

  /** The text of `t` stands in `s` at position `p`, said token by token. */
  predicate Spans(s: string, p: nat, t: Tree)
    decreases t
  {
    match t
    case Num(gap, text) => Gap(s, p, gap) && Word(s, p + gap, text)
    case Name(gap, name) => Gap(s, p, gap) && Word(s, p + gap, name)
    case Call(gap, name, gapOpen, arg, gapClose) =>
      var o := p + gap + |name| + gapOpen;
      var c := o + 1 + Size(arg) + gapClose;
      && Gap(s, p, gap) && Word(s, p + gap, name) && Gap(s, p + gap + |name|, gapOpen)
      && CharAt(s, o, '(') && Spans(s, o + 1, arg) && Gap(s, o + 1 + Size(arg), gapClose) && CharAt(s, c, ')')
    case Paren(gap, inner, gapClose) =>
      var o := p + gap;
      var c := o + 1 + Size(inner) + gapClose;
      && Gap(s, p, gap) && CharAt(s, o, '(')
      && Spans(s, o + 1, inner) && Gap(s, o + 1 + Size(inner), gapClose) && CharAt(s, c, ')')
    case Sign(gap, minus, operand) =>
      Gap(s, p, gap) && CharAt(s, p + gap, SignChar(minus)) && Spans(s, p + gap + 1, operand)
    case Pow(base, gap, exponent) =>
      var q := p + Size(base) + gap;
      Spans(s, p, base) && Gap(s, p + Size(base), gap) && CharAt(s, q, '^') && Spans(s, q + 1, exponent)
    case Bin(left, gap, op, right) =>
      var q := p + Size(left) + gap;
      Spans(s, p, left) && Gap(s, p + Size(left), gap) && CharAt(s, q, op.Symbol()) && Spans(s, q + 1, right)
  }

  lemma WordConcat(s: string, p: nat, u: string, w: string)
    ensures Word(s, p, u + w) <==> Word(s, p, u) && Word(s, p + |u|, w)
  {
    if Word(s, p, u + w) {
      assert s[p..p + |u|] == (u + w)[..|u|];
      assert s[p + |u|..p + |u| + |w|] == (u + w)[|u|..];
    }
    if Word(s, p, u) && Word(s, p + |u|, w) {
      assert s[p..p + |u + w|] == s[p..p + |u|] + s[p + |u|..p + |u| + |w|];
    }
  }

  lemma WordGap(s: string, p: nat, g: nat)
    ensures Word(s, p, Spaces(g)) <==> Gap(s, p, g)
  {
    if Word(s, p, Spaces(g)) {
      forall i | p <= i < p + g ensures s[i] == ' ' {
        assert s[i] == s[p..p + g][i - p];
      }
    }
  }

  lemma WordChar(s: string, p: nat, c: char)
    ensures Word(s, p, [c]) <==> CharAt(s, p, c)
  {
    if Word(s, p, [c]) {
      assert s[p] == s[p..p + 1][0];
    }
  }

  lemma GapWord(s: string, p: nat, g: nat, w: string)
    ensures Word(s, p, Spaces(g) + w) <==> Gap(s, p, g) && Word(s, p + g, w)
  {
    WordConcat(s, p, Spaces(g), w);
    WordGap(s, p, g);
  }

  lemma CharWord(s: string, p: nat, c: char, w: string)
    ensures Word(s, p, [c] + w) <==> CharAt(s, p, c) && Word(s, p + 1, w)
  {
    WordConcat(s, p, [c], w);
    WordChar(s, p, c);
  }

  lemma {:induction false} CloseWord(s: string, p: nat, t: Tree, g: nat)
    requires |Text(t)| == Size(t) && (Word(s, p, Text(t)) <==> Spans(s, p, t))
    ensures Word(s, p, Text(t) + (Spaces(g) + ")")) <==>
            Spans(s, p, t) && Gap(s, p + Size(t), g) && CharAt(s, p + Size(t) + g, ')')
  {
    hide *;
    WordConcat(s, p, Text(t), Spaces(g) + ")");
    GapWord(s, p + Size(t), g, ")");
    WordChar(s, p + Size(t) + g, ')');
  }

  lemma {:induction false} InfixWord(s: string, p: nat, l: Tree, g: nat, c: char, r: Tree)
    requires |Text(l)| == Size(l) && (Word(s, p, Text(l)) <==> Spans(s, p, l))
    ensures Word(s, p, Text(l) + (Spaces(g) + ([c] + Text(r)))) <==>
            Spans(s, p, l) && Gap(s, p + Size(l), g) && CharAt(s, p + Size(l) + g, c)
            && Word(s, p + Size(l) + g + 1, Text(r))
  {
    hide *;
    WordConcat(s, p, Text(l), Spaces(g) + ([c] + Text(r)));
    GapWord(s, p + Size(l), g, [c] + Text(r));
    CharWord(s, p + Size(l) + g, c, Text(r));
  }

  lemma {:induction false} CallWord(s: string, p: nat, t: Tree)
    requires t.Call? && |Text(t.arg)| == Size(t.arg)
    requires var o := p + t.gap + |t.name| + t.gapOpen;
             Word(s, o + 1, Text(t.arg)) <==> Spans(s, o + 1, t.arg)
    ensures |Text(t)| == Size(t)
    ensures Spans(s, p, t) <==> Word(s, p, Text(t))
  {
    hide Word, Gap, CharAt;
    var n := p + t.gap + |t.name|;
    var o := n + t.gapOpen;
    var rest := Text(t.arg) + (Spaces(t.gapClose) + ")");
    assert Text(t) == Spaces(t.gap) + (t.name + (Spaces(t.gapOpen) + ("(" + rest)));
    CloseWord(s, o + 1, t.arg, t.gapClose);
    GapWord(s, p, t.gap, t.name + (Spaces(t.gapOpen) + ("(" + rest)));
    WordConcat(s, p + t.gap, t.name, Spaces(t.gapOpen) + ("(" + rest));
    GapWord(s, n, t.gapOpen, "(" + rest);
    CharWord(s, o, '(', rest);
  }

  /** The two ways of saying where a derivation lies are the same. */
  lemma {:induction false} SpansText(s: string, p: nat, t: Tree)
    ensures |Text(t)| == Size(t)
    ensures Spans(s, p, t) <==> Word(s, p, Text(t))
    decreases t
  {
    hide Word, Gap, CharAt;
    match t
    case Num(gap, text) => GapWord(s, p, gap, text);
    case Name(gap, name) => GapWord(s, p, gap, name);
    case Call(gap, name, gapOpen, arg, gapClose) =>
      SpansText(s, p + gap + |name| + gapOpen + 1, arg);
      CallWord(s, p, t);
    case Paren(gap, inner, gapClose) =>
      var rest := Text(inner) + (Spaces(gapClose) + ")");
      SpansText(s, p + gap + 1, inner);
      CloseWord(s, p + gap + 1, inner, gapClose);
      GapWord(s, p, gap, "(" + rest);
      CharWord(s, p + gap, '(', rest);
    case Sign(gap, minus, operand) =>
      SpansText(s, p + gap + 1, operand);
      GapWord(s, p, gap, [SignChar(minus)] + Text(operand));
      CharWord(s, p + gap, SignChar(minus), Text(operand));
    case Pow(base, gap, exponent) =>
      SpansText(s, p, base);
      SpansText(s, p + Size(base) + gap + 1, exponent);
      InfixWord(s, p, base, gap, '^', exponent);
    case Bin(left, gap, op, right) =>
      SpansText(s, p, left);
      SpansText(s, p + Size(left) + gap + 1, right);
      InfixWord(s, p, left, gap, op.Symbol(), right);
  }

  // ----- scanning tokens

  lemma {:induction false} SkipGap(s: string, p: nat, g: nat)
    requires Gap(s, p, g)
    ensures Skip(s, p) == Skip(s, p + g)
    decreases g
  {
    if g > 0 {
      SkipGap(s, p + 1, g - 1);
    }
  }

  /** A gap and then a character that is not a space. */
  lemma SkipToChar(s: string, p: nat, g: nat, c: char)
    requires Gap(s, p, g) && CharAt(s, p + g, c) && c != ' '
    ensures Skip(s, p) == p + g
  {
    SkipGap(s, p, g);
  }

  lemma {:induction false} ScanWord(s: string, p: nat, q: nat)
    requires p <= q <= |s|
    ensures (forall i :: p <= i < q ==> IsLower(s[i])) && (q < |s| ==> !IsLower(s[q])) ==> ScanLower(s, p) == q
    ensures (forall i :: p <= i < q ==> IsDigit(s[i])) && (q < |s| ==> !IsDigit(s[q])) ==> ScanDigits(s, p) == q
    decreases q - p
  {
    if p < q {
      ScanWord(s, p + 1, q);
    }
  }

  lemma WordChars(s: string, p: nat, w: string)
    requires Word(s, p, w)
    ensures forall i :: p <= i < p + |w| ==> s[i] == w[i - p]
  {
    forall i | p <= i < p + |w| ensures s[i] == w[i - p] {
      assert s[i] == s[p..p + |w|][i - p];
    }
  }

  // ----- completeness

  /** What may follow a derivation of level `k` that ends at `e`: nothing that would
      lengthen its last token, and no operator that its level would still take. */
  predicate Follow(s: string, e: nat, k: nat) {
    && e <= |s|
    && (e < |s| ==> !IsLower(s[e]) && !IsDigit(s[e]))
    && var q := Skip(s, e);
       q < |s| ==>
         && s[q] != '('
         && (k <= 2 ==> s[q] != '^')
         && (k <= 1 ==> s[q] != '*' && s[q] != '/' && s[q] != '%')
         && (k <= 0 ==> s[q] != '+' && s[q] != '-')
  }

  /** The routine answered with `v` and its cursor is past `e` by spaces at most. */
  ghost predicate Answers<N>(r: Parsed<N>, v: Result<N>, s: string, e: nat)
    requires e <= |s|
  {
    match v
    case Err(x) => r == Bad(x)
    case Ok(n) => r.Good? && r.value == n && e <= r.pos <= |s| && Skip(s, r.pos) == Skip(s, e)
  }

  /** The loop over products goes on from `e` with the value so far, if there is one. */
  function ThenProducts<N>(a: Arithmetic<N>, s: string, x: Result<N>, e: nat): Parsed<N>
    requires e <= |s|
  {
    match x
    case Err(error) => Bad(error)
    case Ok(v) => MulDivLoop(a, s, v, e)
  }

  function ThenSums<N>(a: Arithmetic<N>, s: string, x: Result<N>, e: nat): Parsed<N>
    requires e <= |s|
  {
    match x
    case Err(error) => Bad(error)
    case Ok(v) => AddSubLoop(a, s, v, e)
  }

  /** The sum that starts at `p` has value `x`, and a closing position follows its spaces. */
  ghost predicate SumUpTo<N>(a: Arithmetic<N>, s: string, p: nat, x: Result<N>, c: nat)
    requires p <= |s|
  {
    match x
    case Err(error) => AddSub(a, s, p) == Bad(error)
    case Ok(v) => var r := AddSub(a, s, p); r.Good? && r.value == v && Skip(s, r.pos) == c
  }

  /** A gap and one of the characters that separate operands always satisfy `Follow`. */
  lemma SeparatorFollows(s: string, e: nat, g: nat, c: char, k: nat)
    requires Gap(s, e, g) && CharAt(s, e + g, c)
    requires c == ')' || (k >= 3 && c == '^') || (k >= 2 && (c == '*' || c == '/' || c == '%'))
          || (k >= 1 && (c == '+' || c == '-'))
    ensures Follow(s, e, k) && Skip(s, e) == e + g
  {
    SkipToChar(s, e, g, c);
  }

  lemma {:induction false} CompleteNumeral<N>(a: Arithmetic<N>, s: string, p: nat, t: Tree, e: nat)
    requires t.Num? && Derives(t, 4) && Spans(s, p, t) && e == p + Size(t) && Follow(s, e, 4)
    ensures Answers(Atom(a, s, p), Eval(a, Erase(t)), s, e)
  {
    NumeralParts(s, p, t, e);
    NumeralStep(a, s, p, p + t.gap, e);
    assert Eval(a, Erase(t)) == ValueOfNumeral(a, t.text);
    hide Atom, Skip, ScanDigits, Eval, Erase;
  }

  lemma NumeralParts(s: string, p: nat, t: Tree, e: nat)
    requires t.Num? && Derives(t, 4) && Spans(s, p, t) && e == p + Size(t) && Follow(s, e, 4)
    ensures var q := p + t.gap;
            && p <= q < e <= |s| && Skip(s, p) == q && s[q..e] == t.text
            && !IsLower(s[q]) && s[q] != '('
            && ScanDigits(s, if IsSign(s[q]) then q + 1 else q) == e
  {
    var w, q := t.text, p + t.gap;
    WordChars(s, q, w);
    SkipToChar(s, p, t.gap, w[0]);
    ScanWord(s, if IsSign(w[0]) then q + 1 else q, e);
  }

  lemma NumeralStep<N>(a: Arithmetic<N>, s: string, p: nat, q: nat, e: nat)
    requires p <= q < e <= |s| && Skip(s, p) == q && !IsLower(s[q]) && s[q] != '('
    requires ScanDigits(s, if IsSign(s[q]) then q + 1 else q) == e
    ensures Answers(Atom(a, s, p), ValueOfNumeral(a, s[q..e]), s, e)
  {
    hide Skip, ScanDigits, AddSub;
  }

  /** A gap and a word of letters: where the name scanner starts and stops. */
  lemma ScanName(s: string, p: nat, g: nat, name: string)
    requires LowerWord(name) && Gap(s, p, g) && Word(s, p + g, name)
    requires var n := p + g + |name|; n < |s| ==> !IsLower(s[n])
    ensures var q := p + g;
            && Skip(s, p) == q && q < |s| && IsLower(s[q])
            && ScanLower(s, q) == q + |name| && s[q..q + |name|] == name
  {
    WordChars(s, p + g, name);
    SkipToChar(s, p, g, name[0]);
    ScanWord(s, p + g, p + g + |name|);
  }

  // One unfolding of each routine, told in terms of results and positions only.

  lemma CallStep<N>(a: Arithmetic<N>, s: string, p: nat, q: nat, n: nat, o: nat, c: nat, x: Result<N>)
    requires p <= q < n <= o < c < |s|
    requires Skip(s, p) == q && IsLower(s[q]) && ScanLower(s, q) == n && Skip(s, n) == o && s[o] == '('
    requires SumUpTo(a, s, o + 1, x, c) && s[c] == ')'
    ensures Answers(Atom(a, s, p), ValueOfCall(a, s[q..n], x), s, c + 1)
  {
  }

  lemma GroupStep<N>(a: Arithmetic<N>, s: string, p: nat, o: nat, c: nat, x: Result<N>)
    requires p <= o < c < |s| && Skip(s, p) == o && s[o] == '('
    requires SumUpTo(a, s, o + 1, x, c) && s[c] == ')'
    ensures Answers(Atom(a, s, p), x, s, c + 1)
  {
  }

  lemma SignStep<N>(a: Arithmetic<N>, s: string, p: nat, q: nat, minus: bool, x: Result<N>, e: nat)
    requires p <= q < e <= |s| && Skip(s, p) == q && s[q] == SignChar(minus)
    requires Answers(Atom(a, s, q + 1), x, s, e)
    ensures Answers(Unary(a, s, p), ValueOfSigned(a, minus, x), s, e)
  {
    hide Atom, Skip;
  }

  lemma PowStep<N>(a: Arithmetic<N>, s: string, p: nat, e: nat, q: nat, e': nat, x: Result<N>, y: Result<N>)
    requires p <= e <= q < e' <= |s| && Skip(s, e) == q && s[q] == '^'
    requires Answers(Unary(a, s, p), x, s, e) && Answers(Unary(a, s, q + 1), y, s, e')
    ensures Answers(PowLevel(a, s, p), ValueOfPower(a, x, y), s, e')
  {
    hide Unary, Skip;
  }

  lemma NoPowStep<N>(a: Arithmetic<N>, s: string, p: nat, e: nat, x: Result<N>)
    requires p <= e && Follow(s, e, 2) && Answers(Unary(a, s, p), x, s, e)
    ensures Answers(PowLevel(a, s, p), x, s, e)
  {
    SkipIsIdempotent(s, e);
  }

  lemma LoopsIgnoreGap<N>(a: Arithmetic<N>, s: string, v: N, p: nat, q: nat)
    requires p <= |s| && q <= |s| && Skip(s, p) == Skip(s, q)
    ensures MulDivLoop(a, s, v, p) == MulDivLoop(a, s, v, q)
    ensures AddSubLoop(a, s, v, p) == AddSubLoop(a, s, v, q)
  {
  }

  lemma FirstFactor<N>(a: Arithmetic<N>, s: string, p: nat, e: nat, x: Result<N>)
    requires p <= e <= |s| && Answers(PowLevel(a, s, p), x, s, e)
    ensures MulDiv(a, s, p) == ThenProducts(a, s, x, e)
  {
  }

  lemma ProductStep<N>(a: Arithmetic<N>, s: string, e: nat, q: nat, e': nat, op: Op, x: Result<N>, y: Result<N>)
    requires e <= q < e' <= |s| && Skip(s, e) == q && s[q] == op.Symbol() && op.Level() == 1
    requires Answers(PowLevel(a, s, q + 1), y, s, e')
    ensures ThenProducts(a, s, x, e) == ThenProducts(a, s, ValueOfBinary(a, op, x, y), e')
  {
    assert OpAt(s, q, 1) == Some(op);
    var r := PowLevel(a, s, q + 1);
    if r.Good? {
      forall v ensures MulDivLoop(a, s, v, r.pos) == MulDivLoop(a, s, v, e') {
        LoopsIgnoreGap(a, s, v, r.pos, e');
      }
    }
  }

  lemma FirstTerm<N>(a: Arithmetic<N>, s: string, p: nat, e: nat, x: Result<N>)
    requires p <= e <= |s| && Answers(MulDiv(a, s, p), x, s, e)
    ensures AddSub(a, s, p) == ThenSums(a, s, x, e)
  {
  }

  lemma SumStep<N>(a: Arithmetic<N>, s: string, e: nat, q: nat, e': nat, op: Op, x: Result<N>, y: Result<N>)
    requires e <= q < e' <= |s| && Skip(s, e) == q && s[q] == op.Symbol() && op.Level() == 0
    requires Answers(MulDiv(a, s, q + 1), y, s, e')
    ensures ThenSums(a, s, x, e) == ThenSums(a, s, ValueOfBinary(a, op, x, y), e')
  {
    assert OpAt(s, q, 0) == Some(op);
    var r := MulDiv(a, s, q + 1);
    if r.Good? {
      forall v ensures AddSubLoop(a, s, v, r.pos) == AddSubLoop(a, s, v, e') {
        LoopsIgnoreGap(a, s, v, r.pos, e');
      }
    }
  }

  /** Where no operator of the level follows, the loop stops. */
  lemma LoopsEnd<N>(a: Arithmetic<N>, s: string, e: nat, x: Result<N>)
    requires e <= |s|
    ensures Follow(s, e, 1) ==> Answers(ThenProducts(a, s, x, e), x, s, e)
    ensures Follow(s, e, 0) ==> Answers(ThenSums(a, s, x, e), x, s, e)
  {
    SkipIsIdempotent(s, e);
    if Follow(s, e, 1) { assert OpAt(s, Skip(s, e), 1) == None; }
    if Follow(s, e, 0) { assert OpAt(s, Skip(s, e), 0) == None; }
  }

  /** After an opening parenthesis: the inner sum is parsed and the closing one found. */
  lemma {:induction false} CompleteGroup<N>(a: Arithmetic<N>, s: string, p: nat, t: Tree, e: nat, g: nat)
    requires Derives(t, 0) && Spans(s, p, t) && e == p + Size(t)
    requires Gap(s, e, g) && CharAt(s, e + g, ')')
    ensures SumUpTo(a, s, p, Eval(a, Erase(t)), e + g)
    decreases t, 7
  {
    SeparatorFollows(s, e, g, ')', 0);
    CompleteSum(a, s, p, t, e);
  }

  lemma CallParts(s: string, p: nat, t: Tree, e: nat)
    requires t.Call? && Derives(t, 4) && Spans(s, p, t) && e == p + Size(t)
    ensures var q := p + t.gap;
            var n := q + |t.name|;
            var o := n + t.gapOpen;
            var e' := o + 1 + Size(t.arg);
            var c := e' + t.gapClose;
            && p <= q < n <= o < e' <= c < |s| && e == c + 1
            && Skip(s, p) == q && IsLower(s[q]) && ScanLower(s, q) == n && s[q..n] == t.name
            && Skip(s, n) == o && s[o] == '(' && Derives(t.arg, 0) && Spans(s, o + 1, t.arg)
            && Gap(s, e', t.gapClose) && CharAt(s, c, ')') && s[c] == ')'
  {
    SkipToChar(s, p + t.gap + |t.name|, t.gapOpen, '(');
    ScanName(s, p, t.gap, t.name);
  }

  lemma CallMeaning<N>(a: Arithmetic<N>, t: Tree)
    requires t.Call?
    ensures Eval(a, Erase(t)) == ValueOfCall(a, t.name, Eval(a, Erase(t.arg)))
  {
  }

  /** An infix node at level `k`: its operator is found after the left operand, which it
      may follow, and its meaning combines those of its operands. */
  lemma InfixParts<N>(a: Arithmetic<N>, s: string, p: nat, t: Tree, e: nat, k: nat)
    requires t.Bin? && Derives(t, k) && Spans(s, p, t) && e == p + Size(t) && Follow(s, e, t.op.Level() + 1)
    ensures var e' := p + Size(t.left);
            var q := e' + t.gap;
            && p <= e' <= q < e <= |s| && e == q + 1 + Size(t.right)
            && Skip(s, e') == q && s[q] == t.op.Symbol()
            && Follow(s, e', t.op.Level() + 1)
            && Spans(s, p, t.left) && Derives(t.left, t.op.Level())
            && Spans(s, q + 1, t.right) && Derives(t.right, t.op.Level() + 1)
            && Eval(a, Erase(t)) == ValueOfBinary(a, t.op, Eval(a, Erase(t.left)), Eval(a, Erase(t.right)))
  {
    SeparatorFollows(s, p + Size(t.left), t.gap, t.op.Symbol(), t.op.Level() + 1);
  }

  lemma {:induction false} CompleteCall<N>(a: Arithmetic<N>, s: string, p: nat, t: Tree, e: nat)
    requires t.Call? && Derives(t, 4) && Spans(s, p, t) && e == p + Size(t)
    ensures Answers(Atom(a, s, p), Eval(a, Erase(t)), s, e)
    decreases t.arg, 8
  {
    hide *;
    CallMeaning(a, t);
    CallParts(s, p, t, e);
    var q := p + t.gap;
    var n := q + |t.name|;
    var o := n + t.gapOpen;
    var e' := o + 1 + Size(t.arg);
    CompleteGroup(a, s, o + 1, t.arg, e', t.gapClose);
    CallStep(a, s, p, q, n, o, e' + t.gapClose, Eval(a, Erase(t.arg)));
  }

  lemma {:induction false} CompleteParen<N>(a: Arithmetic<N>, s: string, p: nat, t: Tree, e: nat)
    requires t.Paren? && Derives(t, 4) && Spans(s, p, t) && e == p + Size(t)
    ensures Answers(Atom(a, s, p), Eval(a, Erase(t)), s, e)
    decreases t.inner, 8
  {
    var o := p + t.gap;
    var e' := o + 1 + Size(t.inner);
    var c := e' + t.gapClose;
    assert e == c + 1;
    SkipToChar(s, p, t.gap, '(');
    CompleteGroup(a, s, o + 1, t.inner, e', t.gapClose);
    GroupStep(a, s, p, o, c, Eval(a, Erase(t.inner)));
  }

  lemma {:induction false} CompleteName<N>(a: Arithmetic<N>, s: string, p: nat, t: Tree, e: nat)
    requires t.Name? && Derives(t, 4) && Spans(s, p, t) && e == p + Size(t) && Follow(s, e, 4)
    ensures Answers(Atom(a, s, p), Eval(a, Erase(t)), s, e)
  {
    ScanName(s, p, t.gap, t.name);
    SkipIsIdempotent(s, e);
  }

  lemma {:induction false} CompleteAtom<N>(a: Arithmetic<N>, s: string, p: nat, t: Tree, e: nat)
    requires Derives(t, 4) && Spans(s, p, t) && e == p + Size(t) && Follow(s, e, 4)
    ensures Answers(Atom(a, s, p), Eval(a, Erase(t)), s, e)
    decreases t, 0
  {
    match t
    case Num(_, _) => CompleteNumeral(a, s, p, t, e);
    case Name(_, _) => CompleteName(a, s, p, t, e);
    case Call(_, _, _, _, _) => CompleteCall(a, s, p, t, e);
    case Paren(_, _, _) => CompleteParen(a, s, p, t, e);
  }

  lemma {:induction false} CompleteUnary<N>(a: Arithmetic<N>, s: string, p: nat, t: Tree, e: nat)
    requires Derives(t, 3) && Spans(s, p, t) && e == p + Size(t) && Follow(s, e, 3)
    ensures Answers(Unary(a, s, p), Eval(a, Erase(t)), s, e)
    decreases t, 1
  {
    FollowTighter(s, e, 3);
    if t.Sign? {
      SignParts(a, s, p, t, e);
      hide *;
      var q := p + t.gap;
      CompleteAtom(a, s, q + 1, t.operand, e);
      SignStep(a, s, p, q, t.minus, Eval(a, Erase(t.operand)), e);
    } else {
      AtomParts(t);
      AtomStart(s, p, t);
      hide *;
      CompleteAtom(a, s, p, t, e);
      UnsignedAtom(a, s, p);
    }
  }

  lemma FollowTighter(s: string, e: nat, k: nat)
    requires Follow(s, e, k)
    ensures Follow(s, e, k + 1) && e <= |s|
  {
    hide Skip;
  }

  lemma AtomParts(t: Tree)
    requires Derives(t, 3) && !t.Sign?
    ensures Derives(t, 4) && !t.Pow? && !t.Bin?
  {
  }

  lemma SignParts<N>(a: Arithmetic<N>, s: string, p: nat, t: Tree, e: nat)
    requires t.Sign? && Derives(t, 3) && Spans(s, p, t) && e == p + Size(t) && e <= |s|
    ensures var q := p + t.gap;
            && p <= q < e && e == q + 1 + Size(t.operand)
            && Skip(s, p) == q && s[q] == SignChar(t.minus)
            && Derives(t.operand, 4) && Spans(s, q + 1, t.operand)
            && Eval(a, Erase(t)) == ValueOfSigned(a, t.minus, Eval(a, Erase(t.operand)))
  {
    SkipToChar(s, p, t.gap, SignChar(t.minus));
    hide Skip;
  }

  /** An unsigned atom does not start with a sign. */
  lemma AtomStart(s: string, p: nat, t: Tree)
    requires Derives(t, 3) && !t.Sign? && !t.Pow? && !t.Bin? && Spans(s, p, t)
    ensures var q := Skip(s, p); q < |s| && !IsSign(s[q])
  {
    if t.Paren? {
      SkipToChar(s, p, t.gap, '(');
    } else {
      var w := if t.Num? then t.text else t.name;
      WordChars(s, p + t.gap, w);
      SkipToChar(s, p, t.gap, w[0]);
    }
  }

  lemma SkipIsIdempotent(s: string, p: nat)
    requires p <= |s|
    ensures Skip(s, Skip(s, p)) == Skip(s, p)
  {
  }

  lemma UnsignedAtom<N>(a: Arithmetic<N>, s: string, p: nat)
    requires p <= |s| && var q := Skip(s, p); q < |s| ==> !IsSign(s[q])
    ensures Unary(a, s, p) == Atom(a, s, p)
  {
    SkipIsIdempotent(s, p);
  }

  lemma {:induction false} CompletePow<N>(a: Arithmetic<N>, s: string, p: nat, t: Tree, e: nat)
    requires Derives(t, 2) && Spans(s, p, t) && e == p + Size(t) && Follow(s, e, 2)
    ensures Answers(PowLevel(a, s, p), Eval(a, Erase(t)), s, e)
    decreases t, 2
  {
    if t.Pow? {
      CompletePowNode(a, s, p, t, e);
    } else {
      CompleteUnary(a, s, p, t, e);
      NoPowStep(a, s, p, e, Eval(a, Erase(t)));
    }
  }

  lemma PowParts<N>(a: Arithmetic<N>, s: string, p: nat, t: Tree, e: nat)
    requires t.Pow? && Derives(t, 2) && Spans(s, p, t) && e == p + Size(t) && Follow(s, e, 2)
    ensures var e' := p + Size(t.base);
            var q := e' + t.gap;
            && p <= e' <= q < e <= |s| && e == q + 1 + Size(t.exponent)
            && Skip(s, e') == q && s[q] == '^' && Follow(s, e', 3) && Follow(s, e, 3)
            && Spans(s, p, t.base) && Derives(t.base, 3)
            && Spans(s, q + 1, t.exponent) && Derives(t.exponent, 3)
            && Eval(a, Erase(t)) == ValueOfPower(a, Eval(a, Erase(t.base)), Eval(a, Erase(t.exponent)))
  {
    SeparatorFollows(s, p + Size(t.base), t.gap, '^', 3);
  }

  lemma {:induction false} CompletePowNode<N>(a: Arithmetic<N>, s: string, p: nat, t: Tree, e: nat)
    requires t.Pow? && Derives(t, 2) && Spans(s, p, t) && e == p + Size(t) && Follow(s, e, 2)
    ensures Answers(PowLevel(a, s, p), Eval(a, Erase(t)), s, e)
    decreases t, 1
  {
    hide *;
    PowParts(a, s, p, t, e);
    var e' := p + Size(t.base);
    var q := e' + t.gap;
    CompleteUnary(a, s, p, t.base, e');
    CompleteUnary(a, s, q + 1, t.exponent, e);
    PowStep(a, s, p, e', q, e, Eval(a, Erase(t.base)), Eval(a, Erase(t.exponent)));
  }

  /** A product is parsed up to its last factor; what follows is left to the loop. */
  lemma {:induction false} CompleteProduct<N>(a: Arithmetic<N>, s: string, p: nat, t: Tree, e: nat)
    requires Derives(t, 1) && Spans(s, p, t) && e == p + Size(t) && Follow(s, e, 2)
    ensures MulDiv(a, s, p) == ThenProducts(a, s, Eval(a, Erase(t)), e)
    decreases t, 3
  {
    if t.Bin? {
      CompleteFactors(a, s, p, t, e);
    } else {
      CompletePow(a, s, p, t, e);
      FirstFactor(a, s, p, e, Eval(a, Erase(t)));
    }
  }

  lemma {:induction false} CompleteFactors<N>(a: Arithmetic<N>, s: string, p: nat, t: Tree, e: nat)
    requires t.Bin? && t.op.Level() == 1 && Derives(t, 1)
    requires Spans(s, p, t) && e == p + Size(t) && Follow(s, e, 2)
    ensures MulDiv(a, s, p) == ThenProducts(a, s, Eval(a, Erase(t)), e)
    decreases t, 2
  {
    hide *;
    InfixParts(a, s, p, t, e, 1);
    var e' := p + Size(t.left);
    var q := e' + t.gap;
    CompleteProduct(a, s, p, t.left, e');
    CompletePow(a, s, q + 1, t.right, e);
    ProductStep(a, s, e', q, e, t.op, Eval(a, Erase(t.left)), Eval(a, Erase(t.right)));
  }

  lemma {:induction false} CompleteTerm<N>(a: Arithmetic<N>, s: string, p: nat, t: Tree, e: nat)
    requires Derives(t, 1) && Spans(s, p, t) && e == p + Size(t) && Follow(s, e, 1)
    ensures Answers(MulDiv(a, s, p), Eval(a, Erase(t)), s, e)
    decreases t, 4
  {
    CompleteProduct(a, s, p, t, e);
    LoopsEnd(a, s, e, Eval(a, Erase(t)));
  }

  lemma {:induction false} CompleteSums<N>(a: Arithmetic<N>, s: string, p: nat, t: Tree, e: nat)
    requires Derives(t, 0) && Spans(s, p, t) && e == p + Size(t) && Follow(s, e, 1)
    ensures AddSub(a, s, p) == ThenSums(a, s, Eval(a, Erase(t)), e)
    decreases t, 5
  {
    if t.Bin? && t.op.Level() == 0 {
      CompleteTerms(a, s, p, t, e);
    } else {
      CompleteTerm(a, s, p, t, e);
      FirstTerm(a, s, p, e, Eval(a, Erase(t)));
    }
  }

  lemma {:induction false} CompleteTerms<N>(a: Arithmetic<N>, s: string, p: nat, t: Tree, e: nat)
    requires t.Bin? && t.op.Level() == 0 && Derives(t, 0)
    requires Spans(s, p, t) && e == p + Size(t) && Follow(s, e, 1)
    ensures AddSub(a, s, p) == ThenSums(a, s, Eval(a, Erase(t)), e)
    decreases t, 4
  {
    hide *;
    InfixParts(a, s, p, t, e, 0);
    var e' := p + Size(t.left);
    var q := e' + t.gap;
    CompleteSums(a, s, p, t.left, e');
    CompleteTerm(a, s, q + 1, t.right, e);
    SumStep(a, s, e', q, e, t.op, Eval(a, Erase(t.left)), Eval(a, Erase(t.right)));
  }

  lemma {:induction false} CompleteSum<N>(a: Arithmetic<N>, s: string, p: nat, t: Tree, e: nat)
    requires Derives(t, 0) && Spans(s, p, t) && e == p + Size(t) && Follow(s, e, 0)
    ensures Answers(AddSub(a, s, p), Eval(a, Erase(t)), s, e)
    decreases t, 6
  {
    CompleteSums(a, s, p, t, e);
    LoopsEnd(a, s, e, Eval(a, Erase(t)));
  }

  /** Every spelling of `Erase(t)` evaluates to its meaning, value or error alike. */
  lemma {:induction false} EveryTreeEvaluates<N>(a: Arithmetic<N>, t: Tree, trailing: nat)
    requires Derives(t, 0)
    ensures EvalText(a, Text(t) + Spaces(trailing)) == Eval(a, Erase(t))
  {
    var s := Text(t) + Spaces(trailing);
    SpansText(s, 0, t);
    SkipGap(s, Size(t), trailing);
    CompleteSum(a, s, 0, t, Size(t));
  }

  /** Printing a printable expression and evaluating the text gives its meaning. */
  lemma PrintThenEvaluate<N>(a: Arithmetic<N>, e: Expr)
    requires Printable(e)
    ensures EvalText(a, Text(Layout(e, 0))) == Eval(a, e)
  {
    LayoutIsFaithful(e, 0);
    EveryTreeEvaluates(a, Layout(e, 0), 0);
    assert Text(Layout(e, 0)) + Spaces(0) == Text(Layout(e, 0));
  }
}
