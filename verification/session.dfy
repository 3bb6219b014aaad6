/** The `Calculator` object of `calculator.py` as an explicit value: its
    fields, `evaluate_expression` and the two mutators `set_variable` and
    `clear`. */
module Session {
  import opened Wrappers
  import opened Text
  import opened Arithmetic
  import opened Lexer
  import opened Evaluator
  import opened Reference

  /** The two fields of a `Calculator`. */
  datatype Calculator = Calculator(currentExpression: string, variables: Bindings)

  /** `Calculator()`: no expression, no variables. */
  function NewCalculator(): Calculator {
    Calculator("", map[])
  }

  /** `evaluate_expression`: tokenize, then evaluate against the variable
      table. It changes nothing. It fails only by an underflow, by a `'('`
      reaching the dispatcher, or by naming a variable that is not set; that
      name is a lower-case identifier of the expression, so a name stored
      with a capital letter is never the one it looks up. */
  function EvaluateExpression(c: Calculator, expression: string): (r: Result<Value, CalcError>)
    ensures r.Err? ==>
      || r.error == Underflow
      || r.error == UnsupportedOp("(")
      || (r.error.UnknownVariable? && r.error.name !in c.variables
          && IsIdentLexeme(r.error.name) && IsNormal(r.error.name))
  {
    var toks := Tokenize(expression);
    EvaluateErrors(toks, c.variables);
    IdentsLexical(toks);
    EvaluateTokens(toks, c.variables)
  }

  /** Every name among lexical tokens is a lower-case identifier. */
  lemma IdentsLexical(toks: seq<Token>)
    requires forall i :: 0 <= i < |toks| ==> Lexical(toks[i])
    ensures forall name :: Ident(name) in toks ==> IsIdentLexeme(name) && IsNormal(name)
  {
    forall name | Ident(name) in toks
      ensures IsIdentLexeme(name) && IsNormal(name)
    {
      var i :| 0 <= i < |toks| && toks[i] == Ident(name);
      assert Lexical(toks[i]);
    }
  }

  /** `set_variable`: the name is stored exactly as given (it is not
      lower-cased) and the last write wins; nothing else changes. */
  function SetVariable(c: Calculator, name: string, value: Value): (r: Calculator)
    ensures r.currentExpression == c.currentExpression
    ensures r.variables.Keys == c.variables.Keys + {name}
    ensures r.variables[name] == value
    ensures forall n :: n in c.variables && n != name ==> r.variables[n] == c.variables[n]
  {
    c.(variables := c.variables[name := value])
  }

  /** `clear`: both fields are reset; the result is a fresh calculator. */
  function Clear(c: Calculator): (r: Calculator)
    ensures r == NewCalculator()
  {
    c.(currentExpression := "", variables := map[])
  }

  /** End to end: the calculator evaluates the text of every well-formed
      expression whose literals are whole numbers and whose names are
      lower-case identifiers to the reference value of that expression. */
  lemma EvaluateText(c: Calculator, e: Expr)
    requires WellFormed(e) && PrintableExpr(e)
    ensures EvaluateExpression(c, ExprText(e)) == Denote(e, c.variables)
  {
    TokenizeText(e);
    EvaluateWellFormed(e, c.variables);
  }

  /** `basic_operation` agrees with evaluating the one-operator expression
      `a op b` for whole numbers `a` and `b`. */
  lemma BasicOperationMatchesExpression(c: Calculator, a: nat, b: nat, o: Operator)
    ensures PrintableExpr(Bin(o, Lit(a as real), Lit(b as real)))
    ensures EvaluateExpression(c, ExprText(Bin(o, Lit(a as real), Lit(b as real))))
         == BasicOperation(Fin(a as real), Fin(b as real), Symbol(o))
  {
    EvaluateText(c, Bin(o, Lit(a as real), Lit(b as real)));
  }

  /** A name that is a lower-case identifier evaluates to the value last
      set for it. */
  lemma SetThenEvaluate(c: Calculator, name: string, value: Value)
    requires IsIdentLexeme(name) && IsNormal(name)
    ensures EvaluateExpression(SetVariable(c, name, value), name) == Ok(value)
  {
    var e := Var(name);
    VarText(name);
    EvaluateText(SetVariable(c, name, value), e);
  }

  lemma VarText(name: string)
    requires IsIdentLexeme(name) && IsNormal(name)
    ensures PrintableExpr(Var(name)) && ExprText(Var(name)) == name
  {
    var toks := [Ident(name)];
    assert Tokens(Var(name)) == toks;
    assert toks[1..] == [];
    assert Render(toks) == Spell(Ident(name)) + Render([]);
    assert Spell(Ident(name)) == name;
    assert name + [] == name;
  }

  /** After `clear` every name is unknown again. */
  lemma ClearForgets(c: Calculator, name: string)
    requires IsIdentLexeme(name) && IsNormal(name)
    ensures EvaluateExpression(Clear(c), name) == Err(UnknownVariable(name))
  {
    var e := Var(name);
    VarText(name);
    EvaluateText(Clear(c), e);
  }

  /** Tokens are lower-cased but `set_variable` stores names verbatim, so a
      variable set under a name with a capital letter never influences any
      evaluation. */
  lemma CapitalisedNameUnreachable(c: Calculator, name: string, value: Value, expression: string)
    requires exists k :: 0 <= k < |name| && IsAsciiUpper(name[k])
    ensures EvaluateExpression(SetVariable(c, name, value), expression) == EvaluateExpression(c, expression)
  {
    var toks := Tokenize(expression);
    assert AgreeOn(toks, SetVariable(c, name, value).variables, c.variables) by {
      forall i | 0 <= i < |toks| && toks[i].Ident?
        ensures toks[i].name != name
      {
        assert IsNormal(toks[i].name);
      }
    }
    EvaluateFrame(toks, SetVariable(c, name, value).variables, c.variables);
  }

  /** Setting the same name twice keeps only the second value. */
  lemma LastWriteWins(c: Calculator, name: string, v1: Value, v2: Value)
    ensures SetVariable(SetVariable(c, name, v1), name, v2) == SetVariable(c, name, v2)
  {
  }
}
