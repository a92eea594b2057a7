/**
 What a text evaluates to, from what its parts evaluate to: one law per construct, in terms of
 texts and the number operations alone.
 */
module MathLaws {
  import opened Options
  import opened MathSyntax
  import opened MathParsing
  import opened MathSpelling

  /** The text can stand as an operand of level `k`: 0 sums, 1 products, 2 powers, 3 signed
      atoms, 4 atoms. */
  ghost predicate Operand(s: string, k: nat) {
    exists t :: Derives(t, k) && Text(t) == s
  }

  /** What such a text evaluates to is what its derivation means. */
  lemma OperandMeans<N>(a: Arithmetic<N>, s: string, k: nat) returns (t: Tree)
    requires Operand(s, k) && k <= 4
    requires k <= 3 || (s != [] && s[0] != '-' && s[0] != '+' && s[0] != ' ')
    ensures Derives(t, k) && Text(t) == s && EvalText(a, s) == Eval(a, Erase(t))
  {
    t :| Derives(t, k) && Text(t) == s;
    DerivesLooser(t, k);
    EveryTreeEvaluates(a, t, 0);
    assert Text(t) + Spaces(0) == Text(t);
  }

  lemma DerivesLooser(t: Tree, k: nat)
    requires Derives(t, k) && k <= 4
    requires k <= 3 || (Text(t) != [] && !IsSign(Text(t)[0]) && Text(t)[0] != ' ')
    ensures Derives(t, 0)
  {
    if t.Num? && k == 4 {
      if t.gap == 0 { assert Text(t) == t.text; }
    }
  }

  /** The text of a node whose gaps are all closed. */
  lemma CallText(name: string, x: Tree)
    ensures Text(Call(0, name, 0, x, 0)) + Spaces(0) == name + "(" + Text(x) + ")"
    ensures Text(Paren(0, x, 0)) + Spaces(0) == "(" + Text(x) + ")"
  {
    assert Spaces(0) == [];
  }

  lemma SignText(minus: bool, y: Tree)
    ensures Text(Sign(0, minus, y)) + Spaces(0) == [SignChar(minus)] + Text(y)
  {
    assert Spaces(0) == [];
  }

  lemma LeafText(w: string)
    ensures Text(Num(0, w)) == w && Text(Name(0, w)) == w
  {
  }

  lemma InfixText(l: Tree, c: char, r: Tree)
    ensures Text(l) + (Spaces(0) + ([c] + Text(r))) == Text(l) + [c] + Text(r)
  {
  }

  /** An infix text means what its node means. */
  lemma {:induction false} InfixMeans<N>(a: Arithmetic<N>, s: string, op: Op, t: string) returns (x: Tree, y: Tree)
    requires Operand(s, op.Level()) && Operand(t, op.Level() + 1)
    ensures EvalText(a, s) == Eval(a, Erase(x)) && EvalText(a, t) == Eval(a, Erase(y))
    ensures EvalText(a, s + [op.Symbol()] + t) == Eval(a, Binary(op, Erase(x), Erase(y)))
  {
    x := OperandMeans(a, s, op.Level());
    y := OperandMeans(a, t, op.Level() + 1);
    var node := Bin(x, 0, op, y);
    assert Derives(node, 0) && Erase(node) == Binary(op, Erase(x), Erase(y));
    InfixText(x, op.Symbol(), y);
    assert Text(node) == s + [op.Symbol()] + t;
    EveryTreeEvaluates(a, node, 0);
    assert Text(node) + Spaces(0) == Text(node);
  }

  /** Sums and differences of a sum and a product: the values are added, or the right one is
      taken from the left one. The left operand's error comes first, then the right one's. */
  lemma {:induction false} SumLaw<N>(a: Arithmetic<N>, s: string, t: string)
    requires Operand(s, 0) && Operand(t, 1)
    ensures var x, y := EvalText(a, s), EvalText(a, t);
            var sum, difference := EvalText(a, s + "+" + t), EvalText(a, s + "-" + t);
            && (x.Ok? && y.Ok? ==> sum == Ok(a.add(x.value, y.value)) && difference == Ok(a.sub(x.value, y.value)))
            && (x.Err? ==> sum == x && difference == x)
            && (x.Ok? && y.Err? ==> sum == y && difference == y)
  {
    assert ['+'] == "+" && ['-'] == "-";
    var x, y := InfixMeans(a, s, Add, t);
    x, y := InfixMeans(a, s, Sub, t);
  }

  /** Products, quotients and remainders of a product and a power. Only a quotient can fail of
      itself, exactly when its right operand is zero. */
  lemma {:induction false} ProductLaw<N>(a: Arithmetic<N>, s: string, t: string)
    requires Operand(s, 1) && Operand(t, 2)
    ensures var x, y := EvalText(a, s), EvalText(a, t);
            var product, quotient, remainder := EvalText(a, s + "*" + t), EvalText(a, s + "/" + t), EvalText(a, s + "%" + t);
            && (x.Ok? && y.Ok? ==>
                  && product == Ok(a.mul(x.value, y.value)) && remainder == Ok(a.mod(x.value, y.value))
                  && quotient == (if a.isZero(y.value) then Err(DivisionByZero) else Ok(a.div(x.value, y.value))))
            && (x.Err? ==> product == x && quotient == x && remainder == x)
            && (x.Ok? && y.Err? ==> product == y && quotient == y && remainder == y)
  {
    assert ['*'] == "*" && ['/'] == "/" && ['%'] == "%";
    var x, y := InfixMeans(a, s, Mul, t);
    x, y := InfixMeans(a, s, Div, t);
    x, y := InfixMeans(a, s, Mod, t);
  }

  /** A power of two signed atoms. */
  lemma {:induction false} PowerLaw<N>(a: Arithmetic<N>, s: string, t: string)
    requires Operand(s, 3) && Operand(t, 3)
    ensures var x, y, power := EvalText(a, s), EvalText(a, t), EvalText(a, s + "^" + t);
            && (x.Ok? && y.Ok? ==> power == Ok(a.pow(x.value, y.value)))
            && (x.Err? ==> power == x) && (x.Ok? && y.Err? ==> power == y)
  {
    var x := OperandMeans(a, s, 3);
    var y := OperandMeans(a, t, 3);
    var node := Pow(x, 0, y);
    assert Derives(node, 0) && Erase(node) == Power(Erase(x), Erase(y));
    InfixText(x, '^', y);
    assert Text(node) == s + "^" + t;
    EveryTreeEvaluates(a, node, 0);
    assert Text(node) + Spaces(0) == Text(node);
  }

  /** A sign before an atom: `-` negates, `+` does nothing. */
  lemma {:induction false} SignLaw<N>(a: Arithmetic<N>, t: string)
    requires Operand(t, 4) && t != [] && t[0] != '-' && t[0] != '+' && t[0] != ' '
    ensures var y := EvalText(a, t);
            && EvalText(a, "+" + t) == y
            && EvalText(a, "-" + t) == (if y.Ok? then Ok(a.neg(y.value)) else y)
  {
    var y := OperandMeans(a, t, 4);
    forall minus: bool ensures EvalText(a, [SignChar(minus)] + t) == Eval(a, Signed(minus, Erase(y))) {
      var node := Sign(0, minus, y);
      assert Derives(node, 0) && Erase(node) == Signed(minus, Erase(y));
      SignText(minus, y);
      EveryTreeEvaluates(a, node, 0);
    }
    assert [SignChar(true)] == "-" && [SignChar(false)] == "+";
  }

  /** Parentheses change nothing. */
  lemma {:induction false} GroupLaw<N>(a: Arithmetic<N>, s: string)
    requires Operand(s, 0)
    ensures EvalText(a, "(" + s + ")") == EvalText(a, s)
  {
    var x := OperandMeans(a, s, 0);
    var group := Paren(0, x, 0);
    assert Derives(group, 0) && Erase(group) == Erase(x);
    CallText("", x);
    EveryTreeEvaluates(a, group, 0);
  }

  /** A call applies its function to what is in the parentheses. The argument's error comes first,
      then that of a name which is not in the table. */
  lemma {:induction false} CallLaw<N>(a: Arithmetic<N>, name: string, s: string)
    requires Operand(s, 0) && name != [] && forall i :: 0 <= i < |name| ==> 'a' <= name[i] <= 'z'
    ensures var x, call := EvalText(a, s), EvalText(a, name + "(" + s + ")");
            && (x.Err? ==> call == x)
            && (x.Ok? ==>
                  if name in {"sqrt", "abs", "ceil", "floor", "round", "log", "sin", "cos", "tan", "exp"}
                  then call == Ok(a.apply(name, x.value)) else call == Err(UnknownFunction(name)))
  {
    var x := OperandMeans(a, s, 0);
    var call := Call(0, name, 0, x, 0);
    assert Derives(call, 0);
    hide EvalText, Derives, Text, Eval, Erase, LowerWord;
    CallMeaning(a, call);
    CallText(name, x);
    EveryTreeEvaluates(a, call, 0);
    CalledName(a, name, EvalText(a, s));
  }

  lemma CalledName<N>(a: Arithmetic<N>, name: string, x: Result<N>)
    requires name != [] && forall i :: 0 <= i < |name| ==> 'a' <= name[i] <= 'z'
    ensures var call := ValueOfCall(a, name, x);
            && (x.Err? ==> call == x)
            && (x.Ok? ==>
                  if name in {"sqrt", "abs", "ceil", "floor", "round", "log", "sin", "cos", "tan", "exp"}
                  then call == Ok(a.apply(name, x.value)) else call == Err(UnknownFunction(name)))
  {
    TableIs(name);
  }

  lemma TableIs(name: string)
    requires LowerWord(name)
    ensures name in FUNCTIONS <==> name in {"sqrt", "abs", "ceil", "floor", "round", "log", "sin", "cos", "tan", "exp"}
  {
    assert !IsLower("log2"[3]) && !IsLower("log10"[3]);
  }

  lemma {:induction false} LeafMeans<N>(a: Arithmetic<N>, t: Tree)
    requires Derives(t, 0) && ((t.Name? && t.gap == 0) || (t.Num? && t.gap == 0))
    ensures EvalText(a, if t.Name? then t.name else t.text) == if t.Name? then ValueOfName(a, t.name) else ValueOfNumeral(a, t.text)
  {
    EveryTreeEvaluates(a, t, 0);
    assert Text(t) + Spaces(0) == (if t.Name? then t.name else t.text);
  }

  /** The two constants, any other word of letters, and numerals. */
  lemma {:induction false} AtomLaw<N>(a: Arithmetic<N>, name: string, w: string)
    requires name != [] && forall i :: 0 <= i < |name| ==> 'a' <= name[i] <= 'z'
    requires w != [] && forall i :: 0 <= i < |w| ==> '0' <= w[i] <= '9' || w[i] == '.'
    ensures EvalText(a, "pi") == Ok(a.pi) && EvalText(a, "e") == Ok(a.e)
    ensures name != "pi" && name != "e" ==> EvalText(a, name) == Err(UnknownIdentifier(name))
    ensures EvalText(a, w) == if a.parse(w).Some? then Ok(a.parse(w).value) else Err(BadNumber(w))
  {
    assert LowerWord("pi") && LowerWord("e");
    assert Derives(Name(0, "pi"), 0) && Derives(Name(0, "e"), 0) && Derives(Name(0, name), 0) && Derives(Num(0, w), 0);
    hide EvalText, Derives;
    LeafMeans(a, Name(0, "pi"));
    LeafMeans(a, Name(0, "e"));
    LeafMeans(a, Name(0, name));
    LeafMeans(a, Num(0, w));
  }

  /** A numeral may carry one sign of its own behind a sign: it is converted with it. */
  lemma {:induction false} SecondSignLaw<N>(a: Arithmetic<N>, c: char, w: string)
    requires (c == '-' || c == '+') && forall i :: 0 <= i < |w| ==> '0' <= w[i] <= '9' || w[i] == '.'
    ensures var v := a.parse([c] + w);
            && EvalText(a, "-" + ([c] + w)) == (if v.Some? then Ok(a.neg(v.value)) else Err(BadNumber([c] + w)))
            && EvalText(a, "+" + ([c] + w)) == (if v.Some? then Ok(v.value) else Err(BadNumber([c] + w)))
  {
    var text := [c] + w;
    assert Numeral(text);
    LeafText(text);
    forall minus: bool ensures EvalText(a, [SignChar(minus)] + text) == ValueOfSigned(a, minus, ValueOfNumeral(a, text)) {
      var node := Sign(0, minus, Num(0, text));
      assert Derives(node, 0);
      SignText(minus, Num(0, text));
      assert Eval(a, Erase(node)) == ValueOfSigned(a, minus, ValueOfNumeral(a, text));
      EveryTreeEvaluates(a, node, 0);
    }
    assert [SignChar(true)] == "-" && [SignChar(false)] == "+";
  }

  /** Spaces around a text change nothing. */
  lemma {:induction false} SpaceLaw<N>(a: Arithmetic<N>, w: string, g: nat, n: nat)
    requires w != [] && forall i :: 0 <= i < |w| ==> '0' <= w[i] <= '9' || w[i] == '.'
    ensures EvalText(a, Spaces(g) + w + Spaces(n)) == EvalText(a, w)
  {
    var t := Num(g, w);
    assert Derives(t, 0);
    EveryTreeEvaluates(a, t, n);
    AtomLaw(a, "e", w);
  }

  /** Operands may be numerals, and what the laws above put together. */
  lemma OperandsCompose(s: string, t: string, w: string, name: string)
    ensures DigitWord(w) ==> forall k: nat :: k <= 4 ==> Operand(w, k)
    ensures Operand(s, 0) && Operand(t, 1) ==> Operand(s + "+" + t, 0) && Operand(s + "-" + t, 0)
    ensures Operand(s, 1) && Operand(t, 2) ==> Operand(s + "*" + t, 1) && Operand(s + "/" + t, 1) && Operand(s + "%" + t, 1)
    ensures Operand(s, 3) && Operand(t, 3) ==> Operand(s + "^" + t, 2)
    ensures Operand(s, 4) ==> Operand("-" + s, 3) && Operand("+" + s, 3)
    ensures Operand(s, 0) ==> forall k: nat :: k <= 4 ==> Operand("(" + s + ")", k)
    ensures Operand(s, 0) && LowerWord(name) ==> forall k: nat :: k <= 4 ==> Operand(name + "(" + s + ")", k)
  {
    if DigitWord(w) {
      forall k: nat | k <= 4 ensures Operand(w, k) { assert Derives(Num(0, w), k) && Text(Num(0, w)) == w; }
    }
    if Operand(s, 0) && Operand(t, 1) { InfixOperand(s, Add, t); InfixOperand(s, Sub, t); }
    if Operand(s, 1) && Operand(t, 2) { InfixOperand(s, Mul, t); InfixOperand(s, Div, t); InfixOperand(s, Mod, t); }
    if Operand(s, 3) && Operand(t, 3) {
      var x :| Derives(x, 3) && Text(x) == s;
      var y :| Derives(y, 3) && Text(y) == t;
      InfixText(x, '^', y);
      assert Derives(Pow(x, 0, y), 2) && Text(Pow(x, 0, y)) == s + "^" + t;
    }
    if Operand(s, 4) {
      var x :| Derives(x, 4) && Text(x) == s;
      assert Derives(Sign(0, true, x), 3) && Text(Sign(0, true, x)) == "-" + s;
      assert Derives(Sign(0, false, x), 3) && Text(Sign(0, false, x)) == "+" + s;
    }
    if Operand(s, 0) { GroupOperand(s, name); }
  }

  lemma InfixOperand(s: string, op: Op, t: string)
    requires Operand(s, op.Level()) && Operand(t, op.Level() + 1)
    ensures Operand(s + [op.Symbol()] + t, op.Level())
  {
    var x :| Derives(x, op.Level()) && Text(x) == s;
    var y :| Derives(y, op.Level() + 1) && Text(y) == t;
    InfixText(x, op.Symbol(), y);
    assert Derives(Bin(x, 0, op, y), op.Level()) && Text(Bin(x, 0, op, y)) == s + [op.Symbol()] + t;
  }

  lemma GroupOperand(s: string, name: string)
    requires Operand(s, 0)
    ensures forall k: nat :: k <= 4 ==> Operand("(" + s + ")", k)
    ensures LowerWord(name) ==> forall k: nat :: k <= 4 ==> Operand(name + "(" + s + ")", k)
  {
    var x :| Derives(x, 0) && Text(x) == s;
    var group, call := Paren(0, x, 0), Call(0, name, 0, x, 0);
    CallText(name, x);
    assert Text(group) + Spaces(0) == Text(group) && Text(call) + Spaces(0) == Text(call);
    forall k: nat | k <= 4 ensures Derives(group, k) && (LowerWord(name) ==> Derives(call, k)) {
    }
  }
}
