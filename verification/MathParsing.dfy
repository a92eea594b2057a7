/**
 The calculator's recursive-descent evaluator: what each parse routine computes from a
 position, as total functions, and the imperative parser that moves a cursor over its
 input, proved to compute exactly that.
 */
module MathParsing {
  import opened Options
  import opened MathSyntax

  /** What a parse routine leaves behind: a value and the cursor, or an error. */
  datatype Parsed<+N> = Good(value: N, pos: nat) | Bad(error: MathError)

  function Skip(s: string, p: nat): (q: nat)
    requires p <= |s|
    ensures p <= q <= |s|
    ensures q < |s| ==> s[q] != ' '
    decreases |s| - p
  {
    if p < |s| && s[p] == ' ' then Skip(s, p + 1) else p
  }

  function ScanLower(s: string, p: nat): (q: nat)
    requires p <= |s|
    ensures p <= q <= |s|
    decreases |s| - p
  {
    if p < |s| && IsLower(s[p]) then ScanLower(s, p + 1) else p
  }

  function ScanDigits(s: string, p: nat): (q: nat)
    requires p <= |s|
    ensures p <= q <= |s|
    decreases |s| - p
  {
    if p < |s| && IsDigit(s[p]) then ScanDigits(s, p + 1) else p
  }

  function ToParsed<N>(r: Result<N>, pos: nat): Parsed<N> {
    match r
    case Ok(v) => Good(v, pos)
    case Err(x) => Bad(x)
  }

  /** The operator of level `k` at position `q`, if there is one. */
  function OpAt(s: string, q: nat, k: nat): (r: Option<Op>)
    ensures r.Some? ==> q < |s| && s[q] == r.value.Symbol() && r.value.Level() == k
    ensures r.None? && q < |s| ==> forall op: Op :: op.Level() == k ==> s[q] != op.Symbol()
  {
    if q >= |s| then None
    else if k == 0 && s[q] == '+' then Some(Add)
    else if k == 0 && s[q] == '-' then Some(Sub)
    else if k == 1 && s[q] == '*' then Some(Mul)
    else if k == 1 && s[q] == '/' then Some(Div)
    else if k == 1 && s[q] == '%' then Some(Mod)
    else None
  }

  // Every routine either fails or moves the cursor strictly forward and not past the end.
  // The measure is the input left, then the grammar level.

  function AddSub<N>(a: Arithmetic<N>, s: string, p: nat): (r: Parsed<N>)
    requires p <= |s|
    ensures r.Good? ==> p < r.pos <= |s|
    decreases |s| - p, 6
  {
    match MulDiv(a, s, p)
    case Bad(x) => Bad(x)
    case Good(v, q) => AddSubLoop(a, s, v, q)
  }

  function AddSubLoop<N>(a: Arithmetic<N>, s: string, left: N, p: nat): (r: Parsed<N>)
    requires p <= |s|
    ensures r.Good? ==> p <= r.pos <= |s|
    decreases |s| - p, 5
  {
    var q := Skip(s, p);
    match OpAt(s, q, 0)
    case None => Good(left, q)
    case Some(op) =>
      match MulDiv(a, s, q + 1)
      case Bad(x) => Bad(x)
      case Good(right, q') =>
        match Combine(a, op, left, right)
        case Err(x) => Bad(x)
        case Ok(v) => AddSubLoop(a, s, v, q')
  }

  function MulDiv<N>(a: Arithmetic<N>, s: string, p: nat): (r: Parsed<N>)
    requires p <= |s|
    ensures r.Good? ==> p < r.pos <= |s|
    decreases |s| - p, 4
  {
    match PowLevel(a, s, p)
    case Bad(x) => Bad(x)
    case Good(v, q) => MulDivLoop(a, s, v, q)
  }

  function MulDivLoop<N>(a: Arithmetic<N>, s: string, left: N, p: nat): (r: Parsed<N>)
    requires p <= |s|
    ensures r.Good? ==> p <= r.pos <= |s|
    decreases |s| - p, 3
  {
    var q := Skip(s, p);
    match OpAt(s, q, 1)
    case None => Good(left, q)
    case Some(op) =>
      match PowLevel(a, s, q + 1)
      case Bad(x) => Bad(x)
      case Good(right, q') =>
        match Combine(a, op, left, right)
        case Err(x) => Bad(x)
        case Ok(v) => MulDivLoop(a, s, v, q')
  }

  function PowLevel<N>(a: Arithmetic<N>, s: string, p: nat): (r: Parsed<N>)
    requires p <= |s|
    ensures r.Good? ==> p < r.pos <= |s|
    decreases |s| - p, 2
  {
    match Unary(a, s, p)
    case Bad(x) => Bad(x)
    case Good(base, q0) =>
      var q := Skip(s, q0);
      if q < |s| && s[q] == '^' then
        match Unary(a, s, q + 1)
        case Bad(x) => Bad(x)
        case Good(exponent, q') => Good(a.pow(base, exponent), q')
      else Good(base, q)
  }

  function Unary<N>(a: Arithmetic<N>, s: string, p: nat): (r: Parsed<N>)
    requires p <= |s|
    ensures r.Good? ==> p < r.pos <= |s|
    decreases |s| - p, 1
  {
    var q := Skip(s, p);
    if q < |s| && s[q] == '-' then
      match Atom(a, s, q + 1)
      case Bad(x) => Bad(x)
      case Good(v, q') => Good(a.neg(v), q')
    else if q < |s| && s[q] == '+' then Atom(a, s, q + 1)
    else Atom(a, s, q)
  }

  function Atom<N>(a: Arithmetic<N>, s: string, p: nat): (r: Parsed<N>)
    requires p <= |s|
    ensures r.Good? ==> p < r.pos <= |s|
    decreases |s| - p, 0
  {
    var q := Skip(s, p);
    if q == |s| then Bad(UnexpectedEnd)
    else if IsLower(s[q]) then
      var n := ScanLower(s, q);
      var name := s[q..n];
      var o := Skip(s, n);
      if o < |s| && s[o] == '(' then
        match AddSub(a, s, o + 1)
        case Bad(x) => Bad(x)
        case Good(v, c0) =>
          var c := Skip(s, c0);
          if c == |s| || s[c] != ')' then Bad(MissingParenAfter(name))
          else if name !in FUNCTIONS then Bad(UnknownFunction(name))
          else Good(a.apply(name, v), c + 1)
      else ToParsed(ValueOfName(a, name), o)
    else if s[q] == '(' then
      match AddSub(a, s, q + 1)
      case Bad(x) => Bad(x)
      case Good(v, c0) =>
        var c := Skip(s, c0);
        if c == |s| || s[c] != ')' then Bad(MissingParen) else Good(v, c + 1)
    else
      var n := ScanDigits(s, if IsSign(s[q]) then q + 1 else q);
      if n == q then Bad(ExpectedNumber(q)) else ToParsed(ValueOfNumeral(a, s[q..n]), n)
  }

  function EvalText<N>(a: Arithmetic<N>, s: string): Result<N> {
    match AddSub(a, s, 0)
    case Bad(x) => Err(x)
    case Good(v, p) =>
      var q := Skip(s, p);
      if q == |s| then Ok(v) else Err(UnexpectedCharacters(q))
  }

  // One turn of each loop, for the methods below, which otherwise keep the loops folded.

  lemma AddSubUnfolds<N>(a: Arithmetic<N>, s: string, left: N, p: nat)
    requires p <= |s|
    ensures var q := Skip(s, p);
            var op := OpAt(s, q, 0);
            AddSubLoop(a, s, left, p) ==
            if op.None? then Good(left, q)
            else
              var r := MulDiv(a, s, q + 1);
              if r.Bad? then r
              else
                var v := Combine(a, op.value, left, r.value);
                if v.Err? then Bad(v.error) else AddSubLoop(a, s, v.value, r.pos)
  {
  }

  lemma MulDivUnfolds<N>(a: Arithmetic<N>, s: string, left: N, p: nat)
    requires p <= |s|
    ensures var q := Skip(s, p);
            var op := OpAt(s, q, 1);
            MulDivLoop(a, s, left, p) ==
            if op.None? then Good(left, q)
            else
              var r := PowLevel(a, s, q + 1);
              if r.Bad? then r
              else
                var v := Combine(a, op.value, left, r.value);
                if v.Err? then Bad(v.error) else MulDivLoop(a, s, v.value, r.pos)
  {
  }

  lemma AddSubStart<N>(a: Arithmetic<N>, s: string, p: nat)
    requires p <= |s|
    ensures AddSub(a, s, p) == var r := MulDiv(a, s, p); if r.Bad? then r else AddSubLoop(a, s, r.value, r.pos)
  {
  }

  lemma MulDivStart<N>(a: Arithmetic<N>, s: string, p: nat)
    requires p <= |s|
    ensures MulDiv(a, s, p) == var r := PowLevel(a, s, p); if r.Bad? then r else MulDivLoop(a, s, r.value, r.pos)
  {
  }

  /** A routine's answer and final cursor agree with what the function computed. */
  ghost predicate Agrees<N>(r: Result<N>, pos: nat, spec: Parsed<N>) {
    match spec
    case Good(v, q) => r == Ok(v) && pos == q
    case Bad(x) => r == Err(x)
  }

  /** The parser object: an input and a cursor that every routine moves. */
  class Parser<N> {
    const a: Arithmetic<N>
    const input: string
    var pos: nat

    constructor (a: Arithmetic<N>, input: string)
      ensures this.a == a && this.input == input && pos == 0
    {
      this.a := a;
      this.input := input;
      pos := 0;
    }

    method SkipSpaces()
      requires pos <= |input|
      modifies this
      ensures pos == Skip(input, old(pos))
    {
      while pos < |input| && input[pos] == ' '
        invariant old(pos) <= pos <= |input|
        invariant Skip(input, pos) == Skip(input, old(pos))
      {
        pos := pos + 1;
      }
    }

    method ParseAddSub() returns (r: Result<N>)
      requires pos <= |input|
      modifies this
      ensures old(pos) <= pos <= |input|
      ensures Agrees(r, pos, AddSub(a, input, old(pos)))
      decreases |input| - pos, 6
    {
      AddSubStart(a, input, pos);
      hide AddSub, AddSubLoop, MulDiv, MulDivLoop, PowLevel;
      r := ParseMulDiv();
      if r.Err? { return; }
      var left := r.value;
      while true
        invariant old(pos) < pos <= |input|
        invariant AddSubLoop(a, input, left, pos) == AddSub(a, input, old(pos))
        decreases |input| - pos
      {
        var turn := AddSubTurn(left);
        if turn.Err? { return Err(turn.error); }
        if turn.value.None? { break; }
        left := turn.value.value;
      }
      r := Ok(left);
    }

    /** One turn of its loop: an operator and an operand, or nothing when no operator follows. */
    method AddSubTurn(left: N) returns (r: Result<Option<N>>)
      requires pos <= |input|
      modifies this
      ensures old(pos) <= pos <= |input|
      ensures var spec := AddSubLoop(a, input, left, old(pos));
              match r
              case Err(x) => spec == Bad(x)
              case Ok(None) => spec == Good(left, pos)
              case Ok(Some(v)) => old(pos) < pos && spec == AddSubLoop(a, input, v, pos)
      decreases |input| - pos, 5
    {
      AddSubUnfolds(a, input, left, pos);
      hide AddSub, AddSubLoop, MulDiv, MulDivLoop, PowLevel, Skip, OpAt, Combine;
      SkipSpaces();
      var op := OpAt(input, pos, 0);
      if op.None? { return Ok(None); }
      pos := pos + 1;
      var right := ParseMulDiv();
      if right.Err? { return Err(right.error); }
      var v := Combine(a, op.value, left, right.value);
      if v.Err? { return Err(v.error); }
      r := Ok(Some(v.value));
    }

    method ParseMulDiv() returns (r: Result<N>)
      requires pos <= |input|
      modifies this
      ensures old(pos) <= pos <= |input|
      ensures Agrees(r, pos, MulDiv(a, input, old(pos)))
      decreases |input| - pos, 4
    {
      MulDivStart(a, input, pos);
      hide AddSub, AddSubLoop, MulDiv, MulDivLoop, PowLevel;
      r := ParsePow();
      if r.Err? { return; }
      var left := r.value;
      while true
        invariant old(pos) < pos <= |input|
        invariant MulDivLoop(a, input, left, pos) == MulDiv(a, input, old(pos))
        decreases |input| - pos
      {
        var turn := MulDivTurn(left);
        if turn.Err? { return Err(turn.error); }
        if turn.value.None? { break; }
        left := turn.value.value;
      }
      r := Ok(left);
    }

    /** One turn of its loop: an operator and an operand, or nothing when no operator follows. */
    method MulDivTurn(left: N) returns (r: Result<Option<N>>)
      requires pos <= |input|
      modifies this
      ensures old(pos) <= pos <= |input|
      ensures var spec := MulDivLoop(a, input, left, old(pos));
              match r
              case Err(x) => spec == Bad(x)
              case Ok(None) => spec == Good(left, pos)
              case Ok(Some(v)) => old(pos) < pos && spec == MulDivLoop(a, input, v, pos)
      decreases |input| - pos, 3
    {
      MulDivUnfolds(a, input, left, pos);
      hide AddSub, AddSubLoop, MulDiv, MulDivLoop, PowLevel, Skip, OpAt, Combine;
      SkipSpaces();
      var op := OpAt(input, pos, 1);
      if op.None? { return Ok(None); }
      pos := pos + 1;
      var right := ParsePow();
      if right.Err? { return Err(right.error); }
      var v := Combine(a, op.value, left, right.value);
      if v.Err? { return Err(v.error); }
      r := Ok(Some(v.value));
    }

    method ParsePow() returns (r: Result<N>)
      requires pos <= |input|
      modifies this
      ensures old(pos) <= pos <= |input|
      ensures Agrees(r, pos, PowLevel(a, input, old(pos)))
      decreases |input| - pos, 2
    {
      hide Unary, Skip;
      r := ParseUnary();
      if r.Err? { return; }
      SkipSpaces();
      if pos < |input| && input[pos] == '^' {
        pos := pos + 1;
        var exponent := ParseUnary();
        if exponent.Err? { return exponent; }
        r := Ok(a.pow(r.value, exponent.value));
      }
    }

    method ParseUnary() returns (r: Result<N>)
      requires pos <= |input|
      modifies this
      ensures old(pos) <= pos <= |input|
      ensures Agrees(r, pos, Unary(a, input, old(pos)))
      decreases |input| - pos, 1
    {
      hide Atom, Skip;
      SkipSpaces();
      if pos < |input| && input[pos] == '-' {
        pos := pos + 1;
        r := ParseAtom();
        if r.Ok? { r := Ok(a.neg(r.value)); }
        return;
      }
      if pos < |input| && input[pos] == '+' {
        pos := pos + 1;
      }
      r := ParseAtom();
    }

    method ParseAtom() returns (r: Result<N>)
      requires pos <= |input|
      modifies this
      ensures old(pos) <= pos <= |input|
      ensures Agrees(r, pos, Atom(a, input, old(pos)))
      decreases |input| - pos, 0, 1
    {
      hide AddSub;
      SkipSpaces();
      assert Atom(a, input, pos) == Atom(a, input, old(pos)) by {
        assert Skip(input, pos) == pos;
      }
      if pos >= |input| { return Err(UnexpectedEnd); }
      if IsLower(input[pos]) {
        r := ParseWord();
        return;
      }
      if input[pos] == '(' {
        pos := pos + 1;
        r := ParseAddSub();
        if r.Err? { return; }
        SkipSpaces();
        if pos >= |input| || input[pos] != ')' { return Err(MissingParen); }
        pos := pos + 1;
        return;
      }
      r := ParseNumber();
    }

    /** The branch of the atom routine for a function call or a constant. */
    method ParseWord() returns (r: Result<N>)
      requires pos < |input| && IsLower(input[pos])
      modifies this
      ensures old(pos) <= pos <= |input|
      ensures Agrees(r, pos, Atom(a, input, old(pos)))
      decreases |input| - pos, 0, 0
    {
      hide AddSub;
      var start := pos;
      while pos < |input| && IsLower(input[pos])
        invariant start <= pos <= |input|
        invariant ScanLower(input, pos) == ScanLower(input, start)
      {
        pos := pos + 1;
      }
      var name := input[start..pos];
      SkipSpaces();
      if pos < |input| && input[pos] == '(' {
        pos := pos + 1;
        r := ParseAddSub();
        if r.Err? { return; }
        SkipSpaces();
        if pos >= |input| || input[pos] != ')' { return Err(MissingParenAfter(name)); }
        pos := pos + 1;
        if name !in FUNCTIONS { return Err(UnknownFunction(name)); }
        return Ok(a.apply(name, r.value));
      }
      r := ValueOfName(a, name);
    }

    /** The branch of the atom routine for a numeral. */
    method ParseNumber() returns (r: Result<N>)
      requires pos < |input| && input[pos] != ' ' && input[pos] != '(' && !IsLower(input[pos])
      modifies this
      ensures old(pos) <= pos <= |input|
      ensures Agrees(r, pos, Atom(a, input, old(pos)))
    {
      var start := pos;
      if IsSign(input[pos]) {
        pos := pos + 1;
      }
      ghost var first := pos;
      while pos < |input| && IsDigit(input[pos])
        invariant first <= pos <= |input|
        invariant ScanDigits(input, pos) == ScanDigits(input, first)
      {
        pos := pos + 1;
      }
      if pos == start { return Err(ExpectedNumber(pos)); }
      r := ValueOfNumeral(a, input[start..pos]);
    }
  }

  method EvalMath<N>(a: Arithmetic<N>, expr: string) returns (r: Result<N>)
    ensures r == EvalText(a, expr)
  {
    var p := new Parser(a, expr);
    r := p.ParseAddSub();
    if r.Err? { return; }
    while p.pos < |p.input| && p.input[p.pos] == ' '
      invariant p.pos <= |p.input|
      invariant AddSub(a, expr, 0).Good?
      invariant Skip(expr, p.pos) == Skip(expr, AddSub(a, expr, 0).pos)
    {
      p.pos := p.pos + 1;
    }
    if p.pos != |p.input| { return Err(UnexpectedCharacters(p.pos)); }
  }
}
