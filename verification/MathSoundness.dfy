/**
 Soundness of the evaluator: every accepted input is the text of a derivation whose
 meaning is the value returned. With completeness this characterises acceptance.
 */
module MathSoundness {
  import opened Options
  import opened MathSyntax
  import opened MathParsing
  import opened MathSpelling

  /** `t` is a derivation of level `k` from `p`, worth `v`, with `n` spaces up to `q`. */
  ghost predicate Covers<N>(a: Arithmetic<N>, s: string, p: nat, k: nat, v: N, q: nat, t: Tree, n: nat) {
    && Derives(t, k) && Spans(s, p, t)
    && Gap(s, p + Size(t), n) && p + Size(t) + n == q
    && Eval(a, Erase(t)) == Ok(v)
  }

  lemma {:induction false} SkipIsGap(s: string, p: nat)
    requires p <= |s|
    ensures Gap(s, p, Skip(s, p) - p)
    decreases |s| - p
  {
    if p < |s| && s[p] == ' ' {
      SkipIsGap(s, p + 1);
    }
  }

  /** Spaces after a derivation extend to the next token. */
  lemma Widen<N>(a: Arithmetic<N>, s: string, p: nat, k: nat, v: N, q: nat, t: Tree, n: nat)
    requires q <= |s| && Covers(a, s, p, k, v, q, t, n)
    ensures var q' := Skip(s, q); Covers(a, s, p, k, v, q', t, n + (q' - q))
  {
    hide Derives, Spans, Eval, Erase;
    SkipIsGap(s, q);
    assert p + Size(t) + n == q;
  }

  /** A derivation of one level is one of the next looser level. */
  lemma Looser<N>(a: Arithmetic<N>, s: string, p: nat, k: nat, v: N, q: nat, t: Tree, n: nat)
    requires 0 < k <= 3 && Covers(a, s, p, k, v, q, t, n)
    ensures Covers(a, s, p, k - 1, v, q, t, n)
  {
  }

  lemma {:induction false} ScanIsWord(s: string, p: nat)
    requires p <= |s|
    ensures forall i :: p <= i < ScanLower(s, p) ==> IsLower(s[i])
    ensures forall i :: p <= i < ScanDigits(s, p) ==> IsDigit(s[i])
    decreases |s| - p
  {
    if p < |s| {
      ScanIsWord(s, p + 1);
    }
  }

  // ----- putting derivations together

  lemma {:induction false} InfixCovers<N>(a: Arithmetic<N>, s: string, p: nat, t: Tree, n: nat, x: N, q: nat, op: Op,
                                          right: Tree, m: nat, y: N, q': nat)
    requires Covers(a, s, p, op.Level(), x, q, t, n) && CharAt(s, q, op.Symbol())
    requires Covers(a, s, q + 1, op.Level() + 1, y, q', right, m)
    requires Combine(a, op, x, y).Ok?
    ensures Covers(a, s, p, op.Level(), Combine(a, op, x, y).value, q', Bin(t, n, op, right), m)
  {
    hide Gap, Word, CharAt, Numeral, LowerWord, IsSign, Combine;
    assert q == p + Size(t) + n;
  }

  lemma {:induction false} PowCovers<N>(a: Arithmetic<N>, s: string, p: nat, t: Tree, n: nat, x: N, q: nat,
                                        right: Tree, m: nat, y: N, q': nat)
    requires Covers(a, s, p, 3, x, q, t, n) && CharAt(s, q, '^')
    requires Covers(a, s, q + 1, 3, y, q', right, m)
    ensures Covers(a, s, p, 2, a.pow(x, y), q', Pow(t, n, right), m)
  {
    hide Gap, Word, CharAt, Numeral, LowerWord, IsSign, Combine;
    assert q == p + Size(t) + n;
  }

  lemma {:induction false} SignCovers<N>(a: Arithmetic<N>, s: string, p: nat, g: nat, minus: bool,
                                         t: Tree, n: nat, x: N, q: nat)
    requires Gap(s, p, g) && CharAt(s, p + g, SignChar(minus)) && Covers(a, s, p + g + 1, 4, x, q, t, n)
    ensures Covers(a, s, p, 3, if minus then a.neg(x) else x, q, Sign(g, minus, t), n)
  {
    hide Gap, CharAt, Numeral, LowerWord;
  }

  lemma {:induction false} ParenCovers<N>(a: Arithmetic<N>, s: string, p: nat, g: nat, t: Tree, n: nat, x: N, c: nat)
    requires Gap(s, p, g) && CharAt(s, p + g, '(') && Covers(a, s, p + g + 1, 0, x, c, t, n) && CharAt(s, c, ')')
    ensures Covers(a, s, p, 4, x, c + 1, Paren(g, t, n), 0)
    ensures Covers(a, s, p, 3, x, c + 1, Paren(g, t, n), 0)
  {
    assert Gap(s, c + 1, 0);
    hide Gap, CharAt, Numeral, LowerWord, IsSign;
    assert c == p + g + 1 + Size(t) + n;
  }

  lemma CallValue<N>(a: Arithmetic<N>, g: nat, name: string, h: nat, t: Tree, n: nat, x: N)
    requires name in FUNCTIONS
    ensures Eval(a, Erase(t)) == Ok(x) ==> Eval(a, Erase(Call(g, name, h, t, n))) == Ok(a.apply(name, x))
  {
  }

  lemma {:induction false} CallCovers<N>(a: Arithmetic<N>, s: string, p: nat, g: nat, name: string, h: nat,
                                         t: Tree, n: nat, x: N, c: nat)
    requires LowerWord(name) && name in FUNCTIONS
    requires var m := p + g + |name|;
             && Gap(s, p, g) && Word(s, p + g, name) && Gap(s, m, h) && CharAt(s, m + h, '(')
             && Covers(a, s, m + h + 1, 0, x, c, t, n) && CharAt(s, c, ')')
    ensures Covers(a, s, p, 4, a.apply(name, x), c + 1, Call(g, name, h, t, n), 0)
    ensures Covers(a, s, p, 3, a.apply(name, x), c + 1, Call(g, name, h, t, n), 0)
  {
    hide *;
    var m := p + g + |name|;
    CoversParts(a, s, m + h + 1, 0, x, c, t, n);
    CallValue(a, g, name, h, t, n, x);
    CallSpans(s, p, g, name, h, t, n, c);
    CallDerives(g, name, h, t, n);
    AreCovers(a, s, p, 4, a.apply(name, x), c + 1, Call(g, name, h, t, n));
    AreCovers(a, s, p, 3, a.apply(name, x), c + 1, Call(g, name, h, t, n));
  }

  lemma CoversParts<N>(a: Arithmetic<N>, s: string, p: nat, k: nat, v: N, q: nat, t: Tree, n: nat)
    requires Covers(a, s, p, k, v, q, t, n)
    ensures Derives(t, k) && Spans(s, p, t) && Gap(s, p + Size(t), n) && p + Size(t) + n == q && Eval(a, Erase(t)) == Ok(v)
  {
  }

  lemma AreCovers<N>(a: Arithmetic<N>, s: string, p: nat, k: nat, v: N, q: nat, t: Tree)
    requires Derives(t, k) && Spans(s, p, t) && p + Size(t) == q <= |s| && Eval(a, Erase(t)) == Ok(v)
    ensures Covers(a, s, p, k, v, q, t, 0)
  {
    hide Derives, Spans, Eval, Erase, Size;
  }

  lemma CallDerives(g: nat, name: string, h: nat, t: Tree, n: nat)
    requires LowerWord(name) && Derives(t, 0)
    ensures Derives(Call(g, name, h, t, n), 4) && Derives(Call(g, name, h, t, n), 3)
  {
    hide LowerWord;
  }

  lemma CallSpans(s: string, p: nat, g: nat, name: string, h: nat, t: Tree, n: nat, c: nat)
    requires var m := p + g + |name|;
             && Gap(s, p, g) && Word(s, p + g, name) && Gap(s, m, h) && CharAt(s, m + h, '(')
             && Spans(s, m + h + 1, t) && Gap(s, m + h + 1 + Size(t), n) && c == m + h + 1 + Size(t) + n && CharAt(s, c, ')')
    ensures Spans(s, p, Call(g, name, h, t, n)) && p + Size(Call(g, name, h, t, n)) == c + 1 <= |s|
  {
    assert c < |s|;
    hide Gap, Word, CharAt;
    var m := p + g + |name|;
    assert p + Size(Call(g, name, h, t, n)) == c + 1;
    assert m + h == p + g + |name| + h;
  }

  // ----- what a successful routine did

  lemma SumsCases<N>(a: Arithmetic<N>, s: string, left: N, p: nat)
    requires p <= |s| && AddSubLoop(a, s, left, p).Good?
    ensures var q := Skip(s, p);
            match OpAt(s, q, 0)
            case None => AddSubLoop(a, s, left, p) == Good(left, q)
            case Some(op) =>
              CharAt(s, q, op.Symbol()) && op.Level() == 0 &&
              var r := MulDiv(a, s, q + 1);
              && r.Good? && Combine(a, op, left, r.value).Ok?
              && AddSubLoop(a, s, left, p) == AddSubLoop(a, s, Combine(a, op, left, r.value).value, r.pos)
  {
  }

  lemma ProductsCases<N>(a: Arithmetic<N>, s: string, left: N, p: nat)
    requires p <= |s| && MulDivLoop(a, s, left, p).Good?
    ensures var q := Skip(s, p);
            match OpAt(s, q, 1)
            case None => MulDivLoop(a, s, left, p) == Good(left, q)
            case Some(op) =>
              CharAt(s, q, op.Symbol()) && op.Level() == 1 &&
              var r := PowLevel(a, s, q + 1);
              && r.Good? && Combine(a, op, left, r.value).Ok?
              && MulDivLoop(a, s, left, p) == MulDivLoop(a, s, Combine(a, op, left, r.value).value, r.pos)
  {
  }

  lemma AtomCases<N>(a: Arithmetic<N>, s: string, p: nat)
    requires p <= |s| && Atom(a, s, p).Good?
    ensures var q := Skip(s, p);
            q < |s| && (s[q] == '(' ==>
              var r := AddSub(a, s, q + 1);
              r.Good? && var c := Skip(s, r.pos); CharAt(s, c, ')') && Atom(a, s, p) == Good(r.value, c + 1))
  {
  }

  lemma NameCases<N>(a: Arithmetic<N>, s: string, p: nat)
    requires p <= |s| && Atom(a, s, p).Good?
    requires var q := Skip(s, p); q < |s| && IsLower(s[q])
    ensures var q := Skip(s, p);
            var m := ScanLower(s, q);
            var o := Skip(s, m);
            q < m &&
            if CharAt(s, o, '(') then
              var r := AddSub(a, s, o + 1);
              r.Good? &&
              var c := Skip(s, r.pos);
              CharAt(s, c, ')') && s[q..m] in FUNCTIONS && Atom(a, s, p) == Good(a.apply(s[q..m], r.value), c + 1)
            else
              var r := ValueOfName(a, s[q..m]);
              r.Ok? && Atom(a, s, p) == Good(r.value, o)
  {
  }

  // ----- soundness of each routine

  lemma {:induction false} SumSound<N>(a: Arithmetic<N>, s: string, p: nat) returns (t: Tree, n: nat)
    requires p <= |s| && AddSub(a, s, p).Good?
    ensures var r := AddSub(a, s, p); Covers(a, s, p, 0, r.value, r.pos, t, n)
    decreases |s| - p, 6
  {
    var r := MulDiv(a, s, p);
    assert r.Good? && AddSub(a, s, p) == AddSubLoop(a, s, r.value, r.pos);
    hide *;
    t, n := TermSound(a, s, p);
    t, n := SumsSound(a, s, p, t, n, r.value, r.pos);
  }

  /** The loop turns a derivation of what it has read into one of what it will have read. */
  lemma {:induction false} SumsSound<N>(a: Arithmetic<N>, s: string, start: nat, t: Tree, n: nat, left: N, p: nat)
    returns (t': Tree, n': nat)
    requires p <= |s| && Covers(a, s, start, 0, left, p, t, n)
    requires AddSubLoop(a, s, left, p).Good?
    ensures var r := AddSubLoop(a, s, left, p); Covers(a, s, start, 0, r.value, r.pos, t', n')
    decreases |s| - p, 5
  {
    hide *;
    var q := Skip(s, p);
    t', n' := t, n + (q - p);
    Widen(a, s, start, 0, left, p, t, n);
    SumsCases(a, s, left, p);
    if OpAt(s, q, 0).Some? {
      var op := OpAt(s, q, 0).value;
      var r := MulDiv(a, s, q + 1);
      var right, m := TermSound(a, s, q + 1);
      InfixCovers(a, s, start, t, n', left, q, op, right, m, r.value, r.pos);
      t', n' := SumsSound(a, s, start, Bin(t, n', op, right), m, Combine(a, op, left, r.value).value, r.pos);
    }
  }

  lemma {:induction false} TermSound<N>(a: Arithmetic<N>, s: string, p: nat) returns (t: Tree, n: nat)
    requires p <= |s| && MulDiv(a, s, p).Good?
    ensures var r := MulDiv(a, s, p); Covers(a, s, p, 1, r.value, r.pos, t, n) && Covers(a, s, p, 0, r.value, r.pos, t, n)
    decreases |s| - p, 4
  {
    var r := PowLevel(a, s, p);
    assert r.Good? && MulDiv(a, s, p) == MulDivLoop(a, s, r.value, r.pos);
    hide *;
    t, n := PowSound(a, s, p);
    t, n := ProductsSound(a, s, p, t, n, r.value, r.pos);
    var r' := MulDiv(a, s, p);
    Looser(a, s, p, 1, r'.value, r'.pos, t, n);
  }

  lemma {:induction false} ProductsSound<N>(a: Arithmetic<N>, s: string, start: nat, t: Tree, n: nat, left: N, p: nat)
    returns (t': Tree, n': nat)
    requires p <= |s| && Covers(a, s, start, 1, left, p, t, n)
    requires MulDivLoop(a, s, left, p).Good?
    ensures var r := MulDivLoop(a, s, left, p); Covers(a, s, start, 1, r.value, r.pos, t', n')
    decreases |s| - p, 3
  {
    hide *;
    var q := Skip(s, p);
    t', n' := t, n + (q - p);
    Widen(a, s, start, 1, left, p, t, n);
    ProductsCases(a, s, left, p);
    if OpAt(s, q, 1).Some? {
      var op := OpAt(s, q, 1).value;
      var r := PowLevel(a, s, q + 1);
      var right, m := PowSound(a, s, q + 1);
      InfixCovers(a, s, start, t, n', left, q, op, right, m, r.value, r.pos);
      t', n' := ProductsSound(a, s, start, Bin(t, n', op, right), m, Combine(a, op, left, r.value).value, r.pos);
    }
  }

  lemma {:induction false} PowSound<N>(a: Arithmetic<N>, s: string, p: nat) returns (t: Tree, n: nat)
    requires p <= |s| && PowLevel(a, s, p).Good?
    ensures var r := PowLevel(a, s, p); Covers(a, s, p, 2, r.value, r.pos, t, n) && Covers(a, s, p, 1, r.value, r.pos, t, n)
    decreases |s| - p, 2
  {
    hide Covers, Unary, Combine;
    var x := Unary(a, s, p);
    var r := PowLevel(a, s, p);
    t, n := UnarySound(a, s, p);
    Widen(a, s, p, 3, x.value, x.pos, t, n);
    var q := Skip(s, x.pos);
    n := n + (q - x.pos);
    if CharAt(s, q, '^') {
      var y := Unary(a, s, q + 1);
      var exponent, m := UnarySound(a, s, q + 1);
      PowCovers(a, s, p, t, n, x.value, q, exponent, m, y.value, y.pos);
      t, n := Pow(t, n, exponent), m;
    } else {
      Looser(a, s, p, 3, r.value, r.pos, t, n);
    }
    Looser(a, s, p, 2, r.value, r.pos, t, n);
  }

  lemma {:induction false} UnarySound<N>(a: Arithmetic<N>, s: string, p: nat) returns (t: Tree, n: nat)
    requires p <= |s| && Unary(a, s, p).Good?
    ensures var r := Unary(a, s, p); Covers(a, s, p, 3, r.value, r.pos, t, n)
    decreases |s| - p, 1
  {
    hide Covers, Atom;
    var q := Skip(s, p);
    SkipIsGap(s, p);
    if q < |s| && IsSign(s[q]) {
      var x := Atom(a, s, q + 1);
      t, n := AtomSound(a, s, q + 1);
      var minus := s[q] == '-';
      SignCovers(a, s, p, q - p, minus, t, n, x.value, x.pos);
      t := Sign(q - p, minus, t);
    } else {
      UnsignedAtom(a, s, p);
      t, n := AtomSound(a, s, p);
    }
  }

  lemma {:induction false} AtomSound<N>(a: Arithmetic<N>, s: string, p: nat) returns (t: Tree, n: nat)
    requires p <= |s| && Atom(a, s, p).Good?
    ensures var r := Atom(a, s, p);
            && Covers(a, s, p, 4, r.value, r.pos, t, n)
            && Skip(s, p) < |s| && (!IsSign(s[Skip(s, p)]) ==> Covers(a, s, p, 3, r.value, r.pos, t, n))
    decreases |s| - p, 0, 1
  {
    hide Covers, Atom;
    AtomCases(a, s, p);
    var q := Skip(s, p);
    if IsLower(s[q]) {
      t, n := NameSound(a, s, p);
    } else if s[q] == '(' {
      t, n := GroupSound(a, s, p);
    } else {
      t, n := NumeralSound(a, s, p);
    }
  }

  lemma {:induction false} GroupSound<N>(a: Arithmetic<N>, s: string, p: nat) returns (t: Tree, n: nat)
    requires p <= |s| && Atom(a, s, p).Good? && CharAt(s, Skip(s, p), '(')
    ensures var r := Atom(a, s, p);
            Covers(a, s, p, 4, r.value, r.pos, t, n) && Covers(a, s, p, 3, r.value, r.pos, t, n)
    decreases |s| - p, 0, 0
  {
    hide Covers, Atom, AddSub;
    AtomCases(a, s, p);
    SkipIsGap(s, p);
    var q := Skip(s, p);
    var r := AddSub(a, s, q + 1);
    t, n := SumSound(a, s, q + 1);
    Widen(a, s, q + 1, 0, r.value, r.pos, t, n);
    var c := Skip(s, r.pos);
    ParenCovers(a, s, p, q - p, t, n + (c - r.pos), r.value, c);
    t, n := Paren(q - p, t, n + (c - r.pos)), 0;
  }

  lemma {:induction false} NumeralSound<N>(a: Arithmetic<N>, s: string, p: nat) returns (t: Tree, n: nat)
    requires p <= |s| && Atom(a, s, p).Good?
    requires var q := Skip(s, p); q < |s| && !IsLower(s[q]) && s[q] != '('
    ensures var r := Atom(a, s, p);
            && Covers(a, s, p, 4, r.value, r.pos, t, n)
            && (!IsSign(s[Skip(s, p)]) ==> Covers(a, s, p, 3, r.value, r.pos, t, n))
  {
    var q := Skip(s, p);
    SkipIsGap(s, p);
    var d := if IsSign(s[q]) then q + 1 else q;
    ScanIsWord(s, d);
    var w := s[q..ScanDigits(s, d)];
    assert Numeral(w);
    t, n := Num(q - p, w), 0;
  }

  lemma {:induction false} NameSound<N>(a: Arithmetic<N>, s: string, p: nat) returns (t: Tree, n: nat)
    requires p <= |s| && Atom(a, s, p).Good?
    requires var q := Skip(s, p); q < |s| && IsLower(s[q])
    ensures var r := Atom(a, s, p);
            Covers(a, s, p, 4, r.value, r.pos, t, n) && Covers(a, s, p, 3, r.value, r.pos, t, n)
    decreases |s| - p, 0, 0
  {
    hide *;
    var q := Skip(s, p);
    NameToken(s, p);
    NameCases(a, s, p);
    var m := ScanLower(s, q);
    var name := s[q..m];
    var o := Skip(s, m);
    if CharAt(s, o, '(') {
      var r := AddSub(a, s, o + 1);
      t, n := SumSound(a, s, o + 1);
      Widen(a, s, o + 1, 0, r.value, r.pos, t, n);
      var c := Skip(s, r.pos);
      CallCovers(a, s, p, q - p, name, o - m, t, n + (c - r.pos), r.value, c);
      t, n := Call(q - p, name, o - m, t, n + (c - r.pos)), 0;
    } else {
      var v := ValueOfName(a, name).value;
      NameCovers(a, s, p, q - p, name, v, o - m);
      t, n := Name(q - p, name), o - m;
    }
  }

  lemma NameToken(s: string, p: nat)
    requires p <= |s| && var q := Skip(s, p); q < |s| && IsLower(s[q])
    ensures var q := Skip(s, p);
            var m := ScanLower(s, q);
            var o := Skip(s, m);
            && q < m && LowerWord(s[q..m]) && Word(s, q, s[q..m])
            && Gap(s, p, q - p) && Gap(s, m, o - m)
  {
    var q := Skip(s, p);
    SkipIsGap(s, p);
    ScanIsWord(s, q);
    SkipIsGap(s, ScanLower(s, q));
  }

  lemma {:induction false} NameCovers<N>(a: Arithmetic<N>, s: string, p: nat, g: nat, name: string, v: N, n: nat)
    requires LowerWord(name) && Gap(s, p, g) && Word(s, p + g, name) && Gap(s, p + g + |name|, n)
    requires ValueOfName(a, name) == Ok(v)
    ensures var q := p + g + |name| + n;
            Covers(a, s, p, 4, v, q, Name(g, name), n) && Covers(a, s, p, 3, v, q, Name(g, name), n)
  {
  }

  lemma CoversAll<N>(a: Arithmetic<N>, s: string, v: N, t: Tree, n: nat)
    requires Covers(a, s, 0, 0, v, |s|, t, n)
    ensures s == Text(t) + Spaces(n)
  {
    SpansText(s, 0, t);
    WordGap(s, Size(t), n);
    assert s == s[..Size(t)] + s[Size(t)..];
  }

  /** Whatever is accepted is spelled by a derivation with that value. */
  lemma {:induction false} AcceptedIsSpelled<N>(a: Arithmetic<N>, s: string) returns (t: Tree, trailing: nat)
    requires EvalText(a, s).Ok?
    ensures Derives(t, 0)
    ensures s == Text(t) + Spaces(trailing)
    ensures Eval(a, Erase(t)) == EvalText(a, s)
  {
    hide AddSub, Text, Derives, Spans, Eval, Erase, Size;
    var r := AddSub(a, s, 0);
    var n;
    t, n := SumSound(a, s, 0);
    Widen(a, s, 0, 0, r.value, r.pos, t, n);
    trailing := n + (|s| - r.pos);
    CoversAll(a, s, r.value, t, trailing);
  }

  ghost predicate Spells(t: Tree, s: string) {
    Derives(t, 0) && exists n: nat :: s == Text(t) + Spaces(n)
  }

  /** Acceptance, exactly: the input is a spelling of some expression worth `v`. */
  lemma {:induction false} AcceptsExactly<N>(a: Arithmetic<N>, s: string, v: N)
    ensures EvalText(a, s) == Ok(v) <==> exists t :: Spells(t, s) && Eval(a, Erase(t)) == Ok(v)
  {
    if EvalText(a, s) == Ok(v) {
      var t, n := AcceptedIsSpelled(a, s);
      assert Spells(t, s);
    }
    if exists t :: Spells(t, s) && Eval(a, Erase(t)) == Ok(v) {
      var t :| Spells(t, s) && Eval(a, Erase(t)) == Ok(v);
      var n: nat :| s == Text(t) + Spaces(n);
      EveryTreeEvaluates(a, t, n);
    }
  }

  /** The grammar is unambiguous in meaning: two readings of one text agree everywhere. */
  lemma {:induction false} ReadingsAgree<N>(a: Arithmetic<N>, s: string, t: Tree, u: Tree)
    requires Spells(t, s) && Spells(u, s)
    ensures Eval(a, Erase(t)) == Eval(a, Erase(u))
  {
    var m: nat :| s == Text(t) + Spaces(m);
    var n: nat :| s == Text(u) + Spaces(n);
    EveryTreeEvaluates(a, t, m);
    EveryTreeEvaluates(a, u, n);
  }

  // ----- which functions can be called

  /** A letter directly followed by a digit or a point. */
  predicate GluedAt(s: string, i: int) {
    0 <= i < |s| - 1 && IsLower(s[i]) && IsDigit(s[i + 1])
  }

  predicate Unglued(s: string) {
    forall i :: 0 <= i < |s| ==> !GluedAt(s, i)
  }

  /** Two texts stay unglued side by side unless a letter ends one and a digit starts the other. */
  lemma UngluedConcat(u: string, v: string)
    requires Unglued(u) && Unglued(v)
    requires u == [] || v == [] || !IsLower(u[|u| - 1]) || !IsDigit(v[0])
    ensures Unglued(u + v)
  {
    var s := u + v;
    forall i | 0 <= i < |s| ensures !GluedAt(s, i) {
      if GluedAt(s, i) {
        if i + 1 < |u| {
          assert GluedAt(u, i);
        } else if i >= |u| {
          assert GluedAt(v, i - |u|);
        }
      }
    }
  }

  lemma UngluedAfterGap(g: nat, w: string)
    requires Unglued(w)
    ensures Unglued(Spaces(g) + w)
  {
    UngluedConcat(Spaces(g), w);
  }

  lemma UngluedAfterChar(c: char, w: string)
    requires Unglued(w) && !IsLower(c)
    ensures Unglued([c] + w)
  {
    UngluedConcat([c], w);
  }

  /** Text, a gap, a character that neither extends a word nor a numeral, and more text. */
  lemma UngluedInfix(u: string, g: nat, c: char, w: string)
    requires Unglued(u) && Unglued(w) && !IsLower(c) && !IsDigit(c)
    ensures Unglued(u + (Spaces(g) + ([c] + w)))
  {
    UngluedAfterChar(c, w);
    UngluedAfterGap(g, [c] + w);
    var v := Spaces(g) + ([c] + w);
    assert v[0] == ' ' || v[0] == c;
    UngluedConcat(u, v);
  }

  /** No derivation's text has a letter directly followed by a digit or a point. */
  lemma {:induction false} TextIsUnglued(t: Tree, k: nat)
    requires Derives(t, k)
    ensures Unglued(Text(t))
    decreases t
  {
    match t
    case Num(gap, text) =>
      UngluedAfterGap(gap, text);
    case Name(gap, name) =>
      UngluedAfterGap(gap, name);
    case Call(gap, name, gapOpen, arg, gapClose) =>
      TextIsUnglued(arg, 0);
      UngluedInfix(Text(arg), gapClose, ')', "");
      UngluedInfix(name, gapOpen, '(', Text(arg) + (Spaces(gapClose) + ([')'] + "")));
      assert [')'] + "" == ")";
      UngluedAfterGap(gap, name + (Spaces(gapOpen) + ("(" + (Text(arg) + (Spaces(gapClose) + ")")))));
    case Paren(gap, inner, gapClose) =>
      TextIsUnglued(inner, 0);
      UngluedInfix(Text(inner), gapClose, ')', "");
      assert [')'] + "" == ")";
      UngluedAfterChar('(', Text(inner) + (Spaces(gapClose) + ")"));
      UngluedAfterGap(gap, "(" + (Text(inner) + (Spaces(gapClose) + ")")));
    case Sign(gap, minus, operand) =>
      TextIsUnglued(operand, 4);
      UngluedAfterChar(SignChar(minus), Text(operand));
      UngluedAfterGap(gap, [SignChar(minus)] + Text(operand));
    case Pow(base, gap, exponent) =>
      TextIsUnglued(base, 3);
      TextIsUnglued(exponent, 3);
      UngluedInfix(Text(base), gap, '^', Text(exponent));
    case Bin(left, gap, op, right) =>
      TextIsUnglued(left, op.Level());
      TextIsUnglued(right, op.Level() + 1);
      UngluedInfix(Text(left), gap, op.Symbol(), Text(right));
  }

  /** Nowhere in an accepted input is a letter directly followed by a digit or a point. */
  lemma AcceptedIsUnglued<N>(a: Arithmetic<N>, s: string)
    requires EvalText(a, s).Ok?
    ensures Unglued(s)
  {
    var t, n := AcceptedIsSpelled(a, s);
    TextIsUnglued(t, 0);
    hide *;
    UngluedConcat(Text(t), Spaces(n));
  }

  /** Some call in the expression applies the function. */
  predicate Applies(t: Tree, name: string) {
    match t
    case Num(_, _) => false
    case Name(_, _) => false
    case Call(_, f, _, arg, _) => f == name || Applies(arg, name)
    case Paren(_, inner, _) => Applies(inner, name)
    case Sign(_, _, operand) => Applies(operand, name)
    case Pow(base, _, exponent) => Applies(base, name) || Applies(exponent, name)
    case Bin(left, _, _, right) => Applies(left, name) || Applies(right, name)
  }

  lemma {:induction false} AppliedIsWord(t: Tree, k: nat, name: string)
    requires Derives(t, k) && Applies(t, name)
    ensures LowerWord(name)
    decreases t
  {
    match t
    case Call(_, f, _, arg, _) => if f != name { AppliedIsWord(arg, 0, name); }
    case Paren(_, inner, _) => AppliedIsWord(inner, 0, name);
    case Sign(_, _, operand) => AppliedIsWord(operand, 4, name);
    case Pow(base, _, exponent) =>
      if Applies(base, name) { AppliedIsWord(base, 3, name); } else { AppliedIsWord(exponent, 3, name); }
    case Bin(left, _, op, right) =>
      if Applies(left, name) { AppliedIsWord(left, op.Level(), name); } else { AppliedIsWord(right, op.Level() + 1, name); }
  }

  /** Some accepted text applies the function. */
  ghost predicate Callable<N>(a: Arithmetic<N>, name: string) {
    exists t :: Derives(t, 0) && EvalText(a, Text(t)).Ok? && Applies(t, name)
  }

  /** A function of the table can be called if and only if its name is all letters. */
  lemma {:induction false} CallableIff<N>(a: Arithmetic<N>, name: string)
    requires name in FUNCTIONS
    ensures Callable(a, name) <==> LowerWord(name)
  {
    if Callable(a, name) {
      var t :| Derives(t, 0) && EvalText(a, Text(t)).Ok? && Applies(t, name);
      AppliedIsWord(t, 0, name);
    }
    if LowerWord(name) {
      var t := Call(0, name, 0, Name(0, "e"), 0);
      assert Derives(t, 0) && Applies(t, name);
      EveryTreeEvaluates(a, t, 0);
      assert Text(t) + Spaces(0) == Text(t);
      assert Erase(t) == Apply(name, Constant("e"));
      CallMeaning(a, t);
      assert Eval(a, Constant("e")) == Ok(a.e);
    }
  }

  /** Ten functions of the table can be called, and log2 and log10 cannot: an input in which
      either name occurs anywhere is not accepted. */
  lemma Log2IsNotCallable<N>(a: Arithmetic<N>)
    ensures forall name :: name in FUNCTIONS ==> (Callable(a, name) <==> name != "log2" && name != "log10")
    ensures forall s, i: nat :: Word(s, i, "log2") || Word(s, i, "log10") ==> EvalText(a, s).Err?
  {
    forall name | name in FUNCTIONS ensures Callable(a, name) <==> name != "log2" && name != "log10" {
      CallableIff(a, name);
      TableWords(name);
    }
    forall s, i: nat | Word(s, i, "log2") || Word(s, i, "log10") ensures EvalText(a, s).Err? {
      if EvalText(a, s).Ok? {
        AcceptedIsUnglued(a, s);
        if Word(s, i, "log2") { WordChars(s, i, "log2"); } else { WordChars(s, i, "log10"); }
        assert GluedAt(s, i + 2);
      }
    }
  }

  lemma TableWords(name: string)
    requires name in FUNCTIONS
    ensures LowerWord(name) <==> name != "log2" && name != "log10"
  {
    if name == "log2" { assert !IsLower(name[3]); }
    if name == "log10" { assert !IsLower(name[3]); }
  }

  /** A word of letters at the start of the input that a character other than a letter, a
      space or `(` cuts short is an identifier, and an unknown one unless it is a constant. */
  lemma {:induction false} CutWordIsUnknown<N>(a: Arithmetic<N>, gap: nat, word: string, c: char, rest: string)
    requires LowerWord(word) && word != "pi" && word != "e"
    requires !IsLower(c) && c != ' ' && c != '('
    ensures EvalText(a, Spaces(gap) + (word + ([c] + rest))) == Err(UnknownIdentifier(word))
  {
    var s := Spaces(gap) + (word + ([c] + rest));
    assert s[gap + |word|] == c;
    assert Gap(s, 0, gap) && Word(s, gap, word);
    ScanName(s, 0, gap, word);
    BadName(a, s, gap, gap + |word|);
    BadAtom(a, s, UnknownIdentifier(word));
  }

  lemma BadName<N>(a: Arithmetic<N>, s: string, q: nat, n: nat)
    requires q < n < |s| && Skip(s, 0) == q && IsLower(s[q]) && ScanLower(s, q) == n
    requires s[n] != ' ' && s[n] != '(' && s[q..n] != "pi" && s[q..n] != "e"
    ensures Atom(a, s, 0) == Bad(UnknownIdentifier(s[q..n]))
    ensures !IsSign(s[q])
  {
    hide AddSub;
  }

  lemma BadAtom<N>(a: Arithmetic<N>, s: string, e: MathError)
    requires Atom(a, s, 0) == Bad(e) && var q := Skip(s, 0); q < |s| ==> !IsSign(s[q])
    ensures EvalText(a, s) == Err(e)
  {
    UnsignedAtom(a, s, 0);
    hide Atom, Unary, Skip;
    assert PowLevel(a, s, 0) == Bad(e);
    assert MulDiv(a, s, 0) == Bad(e);
  }
}
