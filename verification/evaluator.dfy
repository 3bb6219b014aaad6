/** The two-stack evaluator of `calculator.py` (`Calculator.evaluate_tokens`
    with its inner `apply_operation`). */
module Evaluator {
  import opened Wrappers
  import opened Arithmetic
  import opened Lexer

  /** An entry of the operator stack: a pending operator or an open
      parenthesis. */
  datatype Pending = Pending(op: Operator) | OpenParen

  /** The string the source keeps on its operator stack. */
  function PendingSymbol(p: Pending): string {
    match p
    case Pending(o) => Symbol(o)
    case OpenParen => "("
  }

  /** The operand and operator lists of `evaluate_tokens`; the top of each
      stack is its last element, as with Python's `append` and `pop`. */
  datatype Machine = Machine(operands: seq<Value>, operators: seq<Pending>)

  /** The variable table `self.variables`. */
  type Bindings = map<string, Value>

  function Top<T>(s: seq<T>): T
    requires |s| > 0
  {
    s[|s| - 1]
  }

  function Pop<T>(s: seq<T>): seq<T>
    requires |s| > 0
  {
    s[..|s| - 1]
  }

  /** `apply_operation`: pop the operator, then `b`, then `a`, and push
      `basic_operation(a, b, op)`. Too few operands is the `IndexError` of
      popping an empty list; a `'('` reaching the dispatcher is the
      unsupported-operation error. */
  function ApplyTop(m: Machine): (r: Result<Machine, CalcError>)
    requires |m.operators| > 0
    ensures |m.operands| < 2 <==> r == Err(Underflow)
    ensures |m.operands| >= 2 && Top(m.operators) == OpenParen ==> r == Err(UnsupportedOp("("))
    ensures |m.operands| >= 2 && Top(m.operators).Pending? ==>
      var n := |m.operands|;
      r == Ok(Machine(m.operands[..n - 2] + [Apply(Top(m.operators).op, m.operands[n - 2], m.operands[n - 1])],
                      Pop(m.operators)))
  {
    var op := Top(m.operators);
    if |m.operands| == 0 then Err(Underflow)
    else
      var b := Top(m.operands);
      var below := Pop(m.operands);
      if |below| == 0 then Err(Underflow)
      else
        var a := Top(below);
        var v :- BasicOperation(a, b, PendingSymbol(op));
        assert below[..|below| - 1] == m.operands[..|m.operands| - 2];
        Ok(Machine(Pop(below) + [v], Pop(m.operators)))
  }

  /** Whether the operator stack stops a reduction at minimum priority `p`:
      it is empty, its top is `'('`, or its top binds less tightly than `p`. */
  predicate Blocks(ops: seq<Pending>, p: nat) {
    |ops| == 0 || Top(ops) == OpenParen || Priority(Top(ops).op) < p
  }

  /** The inner `while` loops of `evaluate_tokens`: apply the top operator
      as long as it is an operator, not `'('`, of priority at least `p`.
      What is left is a prefix of the operator stack that blocks `p`, and
      every application consumed one operand. */
  function Reduce(m: Machine, p: nat): (r: Result<Machine, CalcError>)
    ensures r.Ok? ==> Blocks(r.value.operators, p)
    ensures r.Ok? ==> |r.value.operators| <= |m.operators|
    ensures r.Ok? ==> r.value.operators == m.operators[..|r.value.operators|]
    ensures r.Ok? ==> |r.value.operands| + |m.operators| == |m.operands| + |r.value.operators|
    ensures r.Err? ==> r.error == Underflow
    decreases |m.operators|
  {
    if !Blocks(m.operators, p) then
      var m' :- ApplyTop(m);
      Reduce(m', p)
    else
      Ok(m)
  }

  /** One iteration of the main loop of `evaluate_tokens`. Only an unbound
      name or a stack underflow can fail it. An operand token pushes one
      operand. An operator is pushed only once the stack below it no longer
      holds an operator of the same or higher priority above a `'('`. A
      `')'` removes its `'('` and everything above it. */
  function Step(m: Machine, t: Token, vars: Bindings): (r: Result<Machine, CalcError>)
    ensures r.Err? ==> r.error == Underflow || (t.Ident? && r.error == UnknownVariable(t.name))
    ensures t.Ident? ==> (r.Ok? <==> t.name in vars)
    ensures t.Num? || t == LParen ==> r.Ok?
    ensures r.Ok? && (t.Num? || t.Ident?) ==>
      && r.value.operators == m.operators
      && |r.value.operands| == |m.operands| + 1
      && r.value.operands[..|m.operands|] == m.operands
      && Top(r.value.operands) == (if t.Num? then Fin(t.value) else vars[t.name])
    ensures r.Ok? && t.Op? ==>
      && |r.value.operators| > 0
      && Top(r.value.operators) == Pending(t.op)
      && Blocks(Pop(r.value.operators), Priority(t.op))
    ensures r.Ok? && t == RParen ==>
      var k := |r.value.operators|;
      k < |m.operators| && m.operators[k] == OpenParen && r.value.operators == m.operators[..k]
  {
    match t
    case Num(x) =>
      assert (m.operands + [Fin(x)])[..|m.operands|] == m.operands;
      Ok(m.(operands := m.operands + [Fin(x)]))
    case Ident(name) =>
      if name in vars then
        assert (m.operands + [vars[name]])[..|m.operands|] == m.operands;
        Ok(m.(operands := m.operands + [vars[name]]))
      else Err(UnknownVariable(name))
    case LParen => Ok(m.(operators := m.operators + [OpenParen]))
    case RParen =>
      // Every priority is at least 0, so this is the loop that stops only at
      // '(' or an empty stack; the `pop()` after it fails on an empty stack.
      var m' :- Reduce(m, 0);
      if |m'.operators| == 0 then Err(Underflow)
      else Ok(m'.(operators := Pop(m'.operators)))
    case Op(o) =>
      var m' :- Reduce(m, Priority(o));
      assert Pop(m'.operators + [Pending(o)]) == m'.operators;
      Ok(m'.(operators := m'.operators + [Pending(o)]))
  }

  /** The main loop over the tokens, stopping at the first error. A run
      fails only by an underflow or an unbound name, and a run that succeeds
      found every name it met bound. */
  function Run(m: Machine, toks: seq<Token>, vars: Bindings): (r: Result<Machine, CalcError>)
    ensures r.Err? ==> r.error == Underflow || (r.error.UnknownVariable? && r.error.name !in vars)
    ensures r.Ok? ==> forall i :: 0 <= i < |toks| && toks[i].Ident? ==> toks[i].name in vars
    decreases |toks|
  {
    if toks == [] then Ok(m)
    else
      var m' :- Step(m, toks[0], vars);
      Run(m', toks[1..], vars)
  }

  /** The final `while operators:` loop. It applies every entry, so a
      leftover `'('` reaches the dispatcher. */
  function Drain(m: Machine): (r: Result<Machine, CalcError>)
    ensures r.Ok? ==> r.value.operators == []
    ensures r.Ok? ==> |r.value.operands| + |m.operators| == |m.operands|
    decreases |m.operators|
  {
    if |m.operators| == 0 then Ok(m)
    else
      var m' :- ApplyTop(m);
      Drain(m')
  }

  /** `evaluate_tokens`: the bottom operand once everything is applied, or 0
      when no operand is left. */
  function EvaluateTokens(toks: seq<Token>, vars: Bindings): (r: Result<Value, CalcError>)
    ensures toks == [] ==> r == Ok(Fin(0.0))
  {
    var m :- Run(Machine([], []), toks, vars);
    var f :- Drain(m);
    Ok(if |f.operands| > 0 then f.operands[0] else Fin(0.0))
  }

  // ---------------------------------------------------------------------
  // Structural facts about the stack machine.
  // ---------------------------------------------------------------------

  /** Running over a concatenation runs over the first part, then (unless it
      failed) over the second. */
  lemma {:induction false} RunAppend(m: Machine, a: seq<Token>, b: seq<Token>, vars: Bindings)
    ensures Run(m, a + b, vars) ==
      match Run(m, a, vars)
      case Ok(m') => Run(m', b, vars)
      case Err(e) => Err(e)
    decreases |a|
  {
    if a == [] {
      assert a + b == b;
    } else {
      assert (a + b)[0] == a[0];
      assert (a + b)[1..] == a[1..] + b;
      match Step(m, a[0], vars)
      case Ok(m1) => RunAppend(m1, a[1..], b, vars);
      case Err(_) =>
    }
  }

  /** A reduction down to priority `p` can be done in two phases: first down
      to a higher priority `q`, then the rest. */
  lemma {:induction false} ReduceSplit(m: Machine, p: nat, q: nat)
    requires p <= q
    ensures Reduce(m, p) ==
      match Reduce(m, q)
      case Ok(m') => Reduce(m', p)
      case Err(e) => Err(e)
    decreases |m.operators|
  {
    if !Blocks(m.operators, q) {
      match ApplyTop(m)
      case Ok(m1) => ReduceSplit(m1, p, q);
      case Err(_) =>
    }
  }

  /** Draining the operator stack may start with any partial reduction. */
  lemma {:induction false} DrainAfterReduce(m: Machine, p: nat)
    ensures Drain(m) ==
      match Reduce(m, p)
      case Ok(m') => Drain(m')
      case Err(e) => Err(e)
    decreases |m.operators|
  {
    if !Blocks(m.operators, p) {
      match ApplyTop(m)
      case Ok(m1) => DrainAfterReduce(m1, p);
      case Err(_) =>
    }
  }

  /** A `'('` left on the operator stack makes the final drain fail: with
      underflow if too few operands reach it, otherwise because `'('` is not
      an operation. */
  lemma {:induction false} DrainLeftoverParen(m: Machine)
    requires OpenParen in m.operators
    ensures Drain(m).Err?
    ensures Drain(m).error == Underflow || Drain(m).error == UnsupportedOp("(")
    decreases |m.operators|
  {
    if Top(m.operators) != OpenParen {
      match ApplyTop(m)
      case Ok(m1) =>
        assert m.operators == Pop(m.operators) + [Top(m.operators)];
        DrainLeftoverParen(m1);
      case Err(_) =>
    }
  }

  // ---------------------------------------------------------------------
  // Parenthesis balance.
  // ---------------------------------------------------------------------

  /** How often `x` occurs in `s`. */
  function Count<T(==)>(s: seq<T>, x: T): nat
    decreases |s|
  {
    if s == [] then 0 else (if s[0] == x then 1 else 0) + Count(s[1..], x)
  }

  /** The number of `'('` entries on an operator stack, counted from the
      top down as the stack is popped. */
  function Opens(ops: seq<Pending>): (n: nat)
    ensures n > 0 <==> OpenParen in ops
    decreases |ops|
  {
    if ops == [] then 0
    else
      var rest := Opens(Pop(ops));
      assert ops == Pop(ops) + [Top(ops)];
      (if Top(ops) == OpenParen then 1 else 0) + rest
  }

  lemma OpensPush(ops: seq<Pending>, x: Pending)
    ensures Opens(ops + [x]) == Opens(ops) + (if x == OpenParen then 1 else 0)
  {
    assert Pop(ops + [x]) == ops;
  }

  /** The inner loops pop only operators, never a `'('`. */
  lemma {:induction false} ReduceOpens(m: Machine, p: nat)
    ensures Reduce(m, p).Ok? ==> Opens(Reduce(m, p).value.operators) == Opens(m.operators)
    decreases |m.operators|
  {
    if !Blocks(m.operators, p) {
      match ApplyTop(m)
      case Ok(m1) =>
        assert m1.operators == Pop(m.operators);
        ReduceOpens(m1, p);
      case Err(_) =>
    }
  }

  /** A `'('` token pushes one `'('`, a `')'` token that succeeds pops one,
      and every other token leaves their number alone. */
  lemma StepOpens(m: Machine, t: Token, vars: Bindings)
    ensures Step(m, t, vars).Ok? ==>
      Opens(Step(m, t, vars).value.operators) as int
        == Opens(m.operators) + (if t == LParen then 1 else 0) - (if t == RParen then 1 else 0)
  {
    match t
    case LParen => OpensPush(m.operators, OpenParen);
    case RParen => CloseOpens(m);
    case Op(o) =>
      ReduceOpens(m, Priority(o));
      if Reduce(m, Priority(o)).Ok? {
        OpensPush(Reduce(m, Priority(o)).value.operators, Pending(o));
      }
    case Num(_) =>
    case Ident(_) =>
  }

  lemma CloseOpens(m: Machine)
    ensures Reduce(m, 0).Ok? && |Reduce(m, 0).value.operators| > 0 ==>
      Opens(Pop(Reduce(m, 0).value.operators)) + 1 == Opens(m.operators)
  {
    ReduceOpens(m, 0);
    if Reduce(m, 0).Ok? {
      var ops := Reduce(m, 0).value.operators;
      if |ops| > 0 {
        assert Top(ops) == OpenParen;
        assert ops == Pop(ops) + [Top(ops)];
        OpensPush(Pop(ops), OpenParen);
      }
    }
  }

  /** Over the main loop, the `'('` entries on the stack grow by the `'('`
      tokens and shrink by the `')'` tokens. */
  lemma {:induction false} RunOpens(m: Machine, toks: seq<Token>, vars: Bindings)
    ensures Run(m, toks, vars).Ok? ==>
      Opens(Run(m, toks, vars).value.operators) as int
        == Opens(m.operators) + Count(toks, LParen) - Count(toks, RParen)
    decreases |toks|
  {
    if toks != [] {
      StepOpens(m, toks[0], vars);
      match Step(m, toks[0], vars)
      case Ok(m1) => RunOpens(m1, toks[1..], vars);
      case Err(_) =>
    }
  }

  /** More `'('` than `')'` tokens always fail: the main loop fails, or a
      `'('` is left for the final drain, which fails on it. */
  lemma LeftoverParenFails(toks: seq<Token>, vars: Bindings)
    requires Count(toks, LParen) > Count(toks, RParen)
    ensures EvaluateTokens(toks, vars).Err?
  {
    var m0 := Machine([], []);
    RunOpens(m0, toks, vars);
    match Run(m0, toks, vars)
    case Ok(m) => DrainLeftoverParen(m);
    case Err(_) =>
  }

  /** Without a `'('` on the stack the drain can only fail with underflow. */
  lemma {:induction false} DrainWithoutParen(m: Machine)
    requires OpenParen !in m.operators
    ensures Drain(m).Err? ==> Drain(m).error == Underflow
    decreases |m.operators|
  {
    if |m.operators| > 0 {
      match ApplyTop(m)
      case Ok(m1) =>
        assert OpenParen !in Pop(m.operators) by {
          assert forall k :: 0 <= k < |Pop(m.operators)| ==> Pop(m.operators)[k] == m.operators[k];
        }
        DrainWithoutParen(m1);
      case Err(_) =>
    }
  }

  /** The main loop fails only with underflow or by naming an identifier of
      the input that has no binding. */
  lemma {:induction false} RunErrors(m: Machine, toks: seq<Token>, vars: Bindings)
    ensures var r := Run(m, toks, vars);
      r.Err? ==> r.error == Underflow || (r.error.UnknownVariable? && Ident(r.error.name) in toks && r.error.name !in vars)
    decreases |toks|
  {
    if toks != [] {
      match Step(m, toks[0], vars)
      case Ok(m1) =>
        RunErrors(m1, toks[1..], vars);
        assert forall t :: t in toks[1..] ==> t in toks;
      case Err(_) =>
    }
  }

  /** Without `'('` tokens no `'('` ever reaches the operator stack. */
  lemma {:induction false} RunWithoutParen(m: Machine, toks: seq<Token>, vars: Bindings)
    requires OpenParen !in m.operators
    requires LParen !in toks
    ensures Run(m, toks, vars).Ok? ==> OpenParen !in Run(m, toks, vars).value.operators
    decreases |toks|
  {
    if toks != [] {
      match Step(m, toks[0], vars)
      case Ok(m1) =>
        StepWithoutParen(m, toks[0], vars);
        assert LParen !in toks[1..] by {
          assert forall k :: 0 <= k < |toks[1..]| ==> toks[1..][k] == toks[k + 1];
        }
        RunWithoutParen(m1, toks[1..], vars);
      case Err(_) =>
    }
  }

  lemma StepWithoutParen(m: Machine, t: Token, vars: Bindings)
    requires OpenParen !in m.operators
    requires t != LParen
    ensures Step(m, t, vars).Ok? ==> OpenParen !in Step(m, t, vars).value.operators
  {
    PrefixWithoutParen(m.operators);
    if t == RParen && Reduce(m, 0).Ok? {
      PrefixWithoutParen(Reduce(m, 0).value.operators);
    }
  }

  lemma PrefixWithoutParen(ops: seq<Pending>)
    requires OpenParen !in ops
    ensures forall k :: 0 <= k <= |ops| ==> OpenParen !in ops[..k]
  {
    forall k | 0 <= k <= |ops|
      ensures OpenParen !in ops[..k]
    {
      assert forall j :: 0 <= j < k ==> ops[..k][j] == ops[j];
    }
  }

  /** What `evaluate_tokens` can fail with: underflow, an unbound name that
      occurs among the tokens, or `'('` reaching the dispatcher, which needs
      a `'('` token. */
  lemma EvaluateErrors(toks: seq<Token>, vars: Bindings)
    ensures var r := EvaluateTokens(toks, vars);
      r.Err? ==>
        || r.error == Underflow
        || (r.error.UnknownVariable? && Ident(r.error.name) in toks && r.error.name !in vars)
        || (r.error == UnsupportedOp("(") && LParen in toks)
  {
    var m0 := Machine([], []);
    RunErrors(m0, toks, vars);
    match Run(m0, toks, vars)
    case Ok(m) =>
      if LParen !in toks {
        RunWithoutParen(m0, toks, vars);
        DrainWithoutParen(m);
      } else {
        match Drain(m)
        case Ok(_) =>
        case Err(_) => DrainErrors(m);
      }
    case Err(_) =>
  }

  lemma {:induction false} DrainErrors(m: Machine)
    ensures Drain(m).Err? ==> Drain(m).error == Underflow || Drain(m).error == UnsupportedOp("(")
    decreases |m.operators|
  {
    if |m.operators| > 0 {
      match ApplyTop(m)
      case Ok(m1) => DrainErrors(m1);
      case Err(_) =>
    }
  }

  /** A `')'` with no `'('` before it fails: the reduction empties the
      operator stack and the `pop()` of the `'('` underflows, unless an
      unbound name or an underflow came first. */
  lemma UnmatchedCloseFails(before: seq<Token>, after: seq<Token>, vars: Bindings)
    requires LParen !in before
    ensures var r := EvaluateTokens(before + [RParen] + after, vars);
      r.Err? && (r.error == Underflow || (r.error.UnknownVariable? && Ident(r.error.name) in before))
  {
    var m0 := Machine([], []);
    assert before + [RParen] + after == before + ([RParen] + after);
    RunAppend(m0, before, [RParen] + after, vars);
    RunErrors(m0, before, vars);
    if Run(m0, before, vars).Ok? {
      var m1 := Run(m0, before, vars).value;
      RunWithoutParen(m0, before, vars);
      PrefixWithoutParen(m1.operators);
    }
  }

  /** With no `'('` on the operator stack, the reduction of a `')'` applies
      every pending operator and leaves the stack empty. */
  lemma ReduceNoParenEmpties(m: Machine)
    requires OpenParen !in m.operators
    ensures Reduce(m, 0).Ok? ==> Reduce(m, 0).value.operators == []
  {
  }

  /** A `')'` that closes more parentheses than were opened before it always
      fails, whatever follows it: by then no `'('` is left on the stack, so
      the `pop()` of the `'('` underflows, unless evaluation already failed. */
  lemma ExcessCloseFails(before: seq<Token>, after: seq<Token>, vars: Bindings)
    requires Count(before, RParen) >= Count(before, LParen)
    ensures EvaluateTokens(before + [RParen] + after, vars).Err?
  {
    var m0 := Machine([], []);
    assert before + [RParen] + after == before + ([RParen] + after);
    RunAppend(m0, before, [RParen] + after, vars);
    RunOpens(m0, before, vars);
    if Run(m0, before, vars).Ok? {
      var m1 := Run(m0, before, vars).value;
      assert Opens(m1.operators) == 0;
      ReduceNoParenEmpties(m1);
      assert ([RParen] + after)[0] == RParen;
      assert Step(m1, RParen, vars).Err?;
    }
  }

  /** Two binding tables that agree on every name among the tokens. */
  predicate AgreeOn(toks: seq<Token>, v1: Bindings, v2: Bindings) {
    forall i :: 0 <= i < |toks| && toks[i].Ident? ==>
      (toks[i].name in v1 <==> toks[i].name in v2) &&
      (toks[i].name in v1 ==> v1[toks[i].name] == v2[toks[i].name])
  }

  lemma {:induction false} RunFrame(m: Machine, toks: seq<Token>, v1: Bindings, v2: Bindings)
    requires AgreeOn(toks, v1, v2)
    ensures Run(m, toks, v1) == Run(m, toks, v2)
    decreases |toks|
  {
    if toks != [] {
      assert Step(m, toks[0], v1) == Step(m, toks[0], v2);
      assert AgreeOn(toks[1..], v1, v2) by {
        assert forall i :: 0 <= i < |toks[1..]| ==> toks[1..][i] == toks[i + 1];
      }
      match Step(m, toks[0], v1)
      case Ok(m1) => RunFrame(m1, toks[1..], v1, v2);
      case Err(_) =>
    }
  }

  /** Evaluation reads the binding table only at the names among the tokens. */
  lemma EvaluateFrame(toks: seq<Token>, v1: Bindings, v2: Bindings)
    requires AgreeOn(toks, v1, v2)
    ensures EvaluateTokens(toks, v1) == EvaluateTokens(toks, v2)
  {
    RunFrame(Machine([], []), toks, v1, v2);
  }
}
