/** A recursive reference semantics for the calculator's infix language,
    and the proof that the two-stack evaluator of `calculator.py` computes
    it on every well-formed expression. */
module Reference {
  import opened Wrappers
  import opened Arithmetic
  import opened Lexer
  import opened Evaluator

  /** Infix expressions as a reader parses them; `Group` is a pair of
      parentheses written in the text. */
  datatype Expr =
    | Lit(x: real)
    | Var(name: string)
    | Bin(op: Operator, left: Expr, right: Expr)
    | Group(inner: Expr)

  /** How tightly an expression holds together: the priority of its main
      operator, or 3 (tighter than any operator) for atoms and groups. */
  function Level(e: Expr): nat {
    if e.Bin? then Priority(e.op) else 3
  }

  /** The expression is the standard reading of its own text: an operand
      binding less tightly than its operator is parenthesised, and so is a
      right operand of equal priority (operators associate to the left). */
  predicate WellFormed(e: Expr) {
    match e
    case Lit(_) => true
    case Var(_) => true
    case Bin(op, l, r) =>
      && Level(l) >= Priority(op) && Level(r) > Priority(op)
      && WellFormed(l) && WellFormed(r)
    case Group(inner) => WellFormed(inner)
  }

  /** The token sequence of the expression's text. */
  function Tokens(e: Expr): seq<Token> {
    match e
    case Lit(x) => [Num(x)]
    case Var(n) => [Ident(n)]
    case Bin(op, l, r) => Tokens(l) + [Op(op)] + Tokens(r)
    case Group(inner) => [LParen] + Tokens(inner) + [RParen]
  }

  /** The reference evaluator: operands left to right, the first unbound
      name is the error. */
  function Denote(e: Expr, vars: Bindings): Result<Value, CalcError> {
    match e
    case Lit(x) => Ok(Fin(x))
    case Var(n) => if n in vars then Ok(vars[n]) else Err(UnknownVariable(n))
    case Bin(op, l, r) =>
      var a :- Denote(l, vars);
      var b :- Denote(r, vars);
      Ok(Apply(op, a, b))
    case Group(inner) => Denote(inner, vars)
  }

  /** The shunting invariant: running over the tokens of `e` from operand
      stack `vs` and operator stack `ops` leaves the value of `e` pending —
      reducing down to `p` pushes exactly that value and restores `ops` — or
      fails with the error the reference reports. */
  predicate Simulates(e: Expr, vars: Bindings, vs: seq<Value>, ops: seq<Pending>, p: nat) {
    var r := Run(Machine(vs, ops), Tokens(e), vars);
    match Denote(e, vars)
    case Ok(v) => r.Ok? && Reduce(r.value, p) == Ok(Machine(vs + [v], ops))
    case Err(x) => r == Err(x)
  }

  /** The invariant holds for every well-formed `e` on stacks whose operator
      top does not react to a priority `p <= Level(e)`. */
  lemma {:induction false} ExprRun(e: Expr, vars: Bindings, vs: seq<Value>, ops: seq<Pending>, p: nat)
    requires WellFormed(e)
    requires p <= Level(e)
    requires Blocks(ops, p)
    ensures Simulates(e, vars, vs, ops, p)
    decreases e, 2
  {
    var m0 := Machine(vs, ops);
    match e
    case Lit(x) =>
      assert Run(m0, Tokens(e), vars) == Run(Machine(vs + [Fin(x)], ops), [], vars);
    case Var(n) =>
      if n in vars {
        assert Run(m0, Tokens(e), vars) == Run(Machine(vs + [vars[n]], ops), [], vars);
      }
    case Group(inner) => GroupRun(e, vars, vs, ops, p);
    case Bin(op, l, r) => BinRun(e, vars, vs, ops, p);
  }

  lemma {:induction false} GroupRun(e: Expr, vars: Bindings, vs: seq<Value>, ops: seq<Pending>, p: nat)
    requires e.Group? && WellFormed(e)
    requires Blocks(ops, p)
    ensures Simulates(e, vars, vs, ops, p)
    decreases e, 1
  {
    var m0 := Machine(vs, ops);
    var t := Tokens(e.inner);
    var m1 := Machine(vs, ops + [OpenParen]);
    assert Tokens(e)[0] == LParen;
    assert Tokens(e)[1..] == t + [RParen];
    assert Run(m0, Tokens(e), vars) == Run(m1, t + [RParen], vars);
    ExprRun(e.inner, vars, vs, ops + [OpenParen], 0);
    RunAppend(m1, t, [RParen], vars);
    if Denote(e.inner, vars).Ok? {
      var v := Denote(e.inner, vars).value;
      var m2 := Run(m1, t, vars).value;
      assert Step(m2, RParen, vars) == Ok(Machine(vs + [v], ops));
    }
  }

  lemma {:induction false} BinRun(e: Expr, vars: Bindings, vs: seq<Value>, ops: seq<Pending>, p: nat)
    requires e.Bin? && WellFormed(e)
    requires p <= Level(e)
    requires Blocks(ops, p)
    ensures Simulates(e, vars, vs, ops, p)
    decreases e, 1
  {
    var m0 := Machine(vs, ops);
    var op, l, r := e.op, e.left, e.right;
    var q := Priority(op);
    var tl := Tokens(l);
    var tr := Tokens(r);
    assert Tokens(e) == tl + ([Op(op)] + tr);
    ExprRun(l, vars, vs, ops, q);
    RunAppend(m0, tl, [Op(op)] + tr, vars);
    if Denote(l, vars).Ok? {
      var vl := Denote(l, vars).value;
      var m1 := Run(m0, tl, vars).value;
      var m2 := Machine(vs + [vl], ops + [Pending(op)]);
      assert Step(m1, Op(op), vars) == Ok(m2);
      assert Run(m1, [Op(op)] + tr, vars) == Run(m2, tr, vars);
      BinRight(e, vars, vs, ops, p, vl);
    }
  }

  /** The right operand of a binary expression, run once its left operand's
      value and its operator are pending. */
  lemma {:induction false} BinRight(e: Expr, vars: Bindings, vs: seq<Value>, ops: seq<Pending>, p: nat, vl: Value)
    requires e.Bin? && WellFormed(e)
    requires p <= Level(e)
    requires Blocks(ops, p)
    requires Denote(e.left, vars) == Ok(vl)
    ensures var r := Run(Machine(vs + [vl], ops + [Pending(e.op)]), Tokens(e.right), vars);
      match Denote(e, vars)
      case Ok(v) => r.Ok? && Reduce(r.value, p) == Ok(Machine(vs + [v], ops))
      case Err(x) => r == Err(x)
    decreases e, 0
  {
    var op, r := e.op, e.right;
    var q := Priority(op);
    var m2 := Machine(vs + [vl], ops + [Pending(op)]);
    ExprRun(r, vars, vs + [vl], ops + [Pending(op)], q + 1);
    if Denote(r, vars).Ok? {
      var vr := Denote(r, vars).value;
      var m3 := Run(m2, Tokens(r), vars).value;
      var m4 := Machine(vs + [vl] + [vr], ops + [Pending(op)]);
      assert Reduce(m3, q + 1) == Ok(m4);
      ReduceSplit(m3, p, q + 1);
      assert Reduce(m3, p) == Reduce(m4, p);
      BinReduce(vs, vl, vr, ops, op, p);
      assert Denote(e, vars) == Ok(Apply(op, vl, vr));
    }
  }

  /** The last step of a binary expression: its own operator is applied to
      the two pending operands and the reduction stops at the context. */
  lemma BinReduce(vs: seq<Value>, vl: Value, vr: Value, ops: seq<Pending>, op: Operator, p: nat)
    requires p <= Priority(op)
    requires Blocks(ops, p)
    ensures Reduce(Machine(vs + [vl] + [vr], ops + [Pending(op)]), p) == Ok(Machine(vs + [Apply(op, vl, vr)], ops))
  {
    var m4 := Machine(vs + [vl] + [vr], ops + [Pending(op)]);
    assert (vs + [vl] + [vr])[..|vs|] == vs;
    assert ApplyTop(m4) == Ok(Machine(vs + [Apply(op, vl, vr)], ops));
  }

  /** Correctness of `evaluate_tokens`: on the tokens of every well-formed
      expression it returns exactly what the reference evaluator returns —
      standard precedence, left associativity, parentheses, variable lookup
      and the unknown-variable error included. */
  lemma EvaluateWellFormed(e: Expr, vars: Bindings)
    requires WellFormed(e)
    ensures EvaluateTokens(Tokens(e), vars) == Denote(e, vars)
  {
    var m0 := Machine([], []);
    ExprRun(e, vars, [], [], 0);
    if Denote(e, vars).Ok? {
      DrainAfterReduce(Run(m0, Tokens(e), vars).value, 0);
    }
  }

  // ---------------------------------------------------------------------
  // The text of an expression.
  // ---------------------------------------------------------------------

  /** Expressions whose text the tokenizer reads back: whole-number
      literals and lower-case identifier names. */
  predicate PrintableExpr(e: Expr) {
    match e
    case Lit(x) => IsNatural(x)
    case Var(n) => IsIdentLexeme(n) && IsNormal(n)
    case Bin(_, l, r) => PrintableExpr(l) && PrintableExpr(r)
    case Group(inner) => PrintableExpr(inner)
  }

  lemma SeparatedJoin(a: seq<Token>, x: Token, b: seq<Token>)
    requires Separated(a) && Separated(b) && !IsWord(x)
    ensures Separated(a + [x] + b)
  {
    var s := a + [x] + b;
    forall i | 0 <= i < |s| - 1
      ensures !(IsWord(s[i]) && IsWord(s[i + 1]))
    {
      if i < |a| - 1 {
        assert s[i] == a[i] && s[i + 1] == a[i + 1];
      } else if i > |a| {
        assert s[i] == b[i - |a| - 1] && s[i + 1] == b[i - |a|];
      }
    }
  }

  /** In the tokens of any expression an operator or a parenthesis stands
      between two numbers or names. */
  lemma {:induction false} TokensSeparated(e: Expr)
    ensures Separated(Tokens(e))
  {
    match e
    case Lit(_) =>
    case Var(_) =>
    case Bin(op, l, r) =>
      TokensSeparated(l);
      TokensSeparated(r);
      SeparatedJoin(Tokens(l), Op(op), Tokens(r));
    case Group(inner) =>
      TokensSeparated(inner);
      SeparatedJoin([], LParen, Tokens(inner));
      assert [] + [LParen] + Tokens(inner) == [LParen] + Tokens(inner);
      SeparatedJoin([LParen] + Tokens(inner), RParen, []);
      assert [LParen] + Tokens(inner) + [RParen] + [] == Tokens(e);
  }

  lemma {:induction false} TokensPrintable(e: Expr)
    requires PrintableExpr(e)
    ensures forall i :: 0 <= i < |Tokens(e)| ==> Printable(Tokens(e)[i])
  {
    match e
    case Lit(_) =>
    case Var(_) =>
    case Bin(op, l, r) =>
      TokensPrintable(l);
      TokensPrintable(r);
    case Group(inner) =>
      TokensPrintable(inner);
  }

  /** The text of an expression: its tokens spelled out and concatenated. */
  function ExprText(e: Expr): string
    requires PrintableExpr(e)
  {
    TokensPrintable(e);
    Render(Tokens(e))
  }

  /** The tokenizer reads the text of a printable expression back as the
      expression's tokens. */
  lemma TokenizeText(e: Expr)
    requires PrintableExpr(e)
    ensures Tokenize(ExprText(e)) == Tokens(e)
  {
    TokensPrintable(e);
    TokensSeparated(e);
    TokenizeRender(Tokens(e));
  }
}
