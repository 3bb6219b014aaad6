/** Worked cases of the calculator, each derived from the general lemmas or
    by stepping the stack machine. */
module CalculatorExamples {
  import opened Wrappers
  import opened Text
  import opened Arithmetic
  import opened Lexer
  import opened Evaluator
  import opened Reference
  import opened Session

  /** Rendering one token in front of others. */
  lemma RenderCons(t: Token, rest: seq<Token>)
    requires Printable(t) && forall i :: 0 <= i < |rest| ==> Printable(rest[i])
    ensures Render([t] + rest) == Spell(t) + Render(rest)
  {
    assert ([t] + rest)[1..] == rest;
  }

  /** The spellings of the whole numbers the examples use. */
  lemma SpellZero()
    ensures Printable(Num(0.0)) && Spell(Num(0.0)) == "0"
  {
    assert (0.0).Floor == 0;
  }

  lemma SpellOne()
    ensures Printable(Num(1.0)) && Spell(Num(1.0)) == "1"
  {
    assert (1.0).Floor == 1;
  }

  lemma SpellTwo()
    ensures Printable(Num(2.0)) && Spell(Num(2.0)) == "2"
  {
    assert (2.0).Floor == 2;
  }

  lemma SpellThree()
    ensures Printable(Num(3.0)) && Spell(Num(3.0)) == "3"
  {
    assert (3.0).Floor == 3;
  }

  lemma SpellFour()
    ensures Printable(Num(4.0)) && Spell(Num(4.0)) == "4"
  {
    assert (4.0).Floor == 4;
  }

  lemma SpellFive()
    ensures Printable(Num(5.0)) && Spell(Num(5.0)) == "5"
  {
    assert (5.0).Floor == 5;
  }

  lemma SpellTen()
    ensures Printable(Num(10.0)) && Spell(Num(10.0)) == "10"
  {
    assert (10.0).Floor == 10;
  }

  lemma SpellTwelve()
    ensures Printable(Num(12.0)) && Spell(Num(12.0)) == "12"
  {
    assert (12.0).Floor == 12;
  }

  /** Rendering a concatenation renders the parts. */
  lemma {:induction false} RenderAppend(a: seq<Token>, b: seq<Token>)
    requires forall i :: 0 <= i < |a| ==> Printable(a[i])
    requires forall i :: 0 <= i < |b| ==> Printable(b[i])
    ensures Render(a + b) == Render(a) + Render(b)
    decreases |a|
  {
    if a == [] {
      assert a + b == b;
    } else {
      var t := a[0];
      var rest := a[1..];
      SplitHead(a, b);
      PrintableAppend(rest, b);
      RenderAppend(rest, b);
      RenderCons(t, rest + b);
      RenderCons(t, rest);
      AppendAssoc(Spell(t), Render(rest), Render(b));
    }
  }

  lemma PrintableAppend(a: seq<Token>, b: seq<Token>)
    requires forall i :: 0 <= i < |a| ==> Printable(a[i])
    requires forall i :: 0 <= i < |b| ==> Printable(b[i])
    ensures forall i :: 0 <= i < |a + b| ==> Printable((a + b)[i])
  {
  }

  lemma RenderOne(t: Token)
    requires Printable(t)
    ensures Render([t]) == Spell(t)
  {
    RenderCons(t, []);
    assert [t] + [] == [t];
  }

  /** A normal text whose tokens are those of a well-formed expression
      evaluates to that expression's meaning. */
  lemma Reads(c: Calculator, text: string, toks: seq<Token>, e: Expr, v: Result<Value, CalcError>)
    requires Tokenize(text) == toks && Tokens(e) == toks
    requires WellFormed(e) && Denote(e, c.variables) == v
    ensures EvaluateExpression(c, text) == v
  {
    EvaluateWellFormed(e, c.variables);
  }

  /** Scanning a rendered, separated token list. */
  lemma Scans(text: string, toks: seq<Token>)
    requires forall i :: 0 <= i < |toks| ==> Printable(toks[i])
    requires Separated(toks) && Render(toks) == text
    ensures Tokenize(text) == toks
  {
    TokenizeRender(toks);
  }

  // "2+3*4": multiplication binds tighter than addition.

  lemma PrecedenceText()
    ensures Render([Num(2.0), Op(Add), Num(3.0), Op(Mul), Num(4.0)]) == "2+3*4"
  {
    SpellTwo(); SpellThree();
    PrecedenceProductText();
    RenderOne(Num(2.0)); RenderOne(Op(Add));
    RenderAppend([Op(Add)], [Num(3.0), Op(Mul), Num(4.0)]);
    RenderAppend([Num(2.0)], [Op(Add), Num(3.0), Op(Mul), Num(4.0)]);
  }

  lemma PrecedenceProductText()
    ensures Render([Num(3.0), Op(Mul), Num(4.0)]) == "3*4"
  {
    SpellThree();
    MulFourText();
    RenderOne(Num(3.0));
    RenderAppend([Num(3.0)], [Op(Mul), Num(4.0)]);
  }

  lemma PrecedenceTokens()
    ensures Tokenize("2+3*4") == [Num(2.0), Op(Add), Num(3.0), Op(Mul), Num(4.0)]
  {
    SpellTwo(); SpellThree(); SpellFour();
    PrecedenceText();
    Scans("2+3*4", [Num(2.0), Op(Add), Num(3.0), Op(Mul), Num(4.0)]);
  }

  lemma PrecedenceMeaning(vars: Bindings)
    ensures Tokens(Bin(Add, Lit(2.0), Bin(Mul, Lit(3.0), Lit(4.0)))) == [Num(2.0), Op(Add), Num(3.0), Op(Mul), Num(4.0)]
    ensures Denote(Bin(Add, Lit(2.0), Bin(Mul, Lit(3.0), Lit(4.0))), vars) == Ok(Fin(14.0))
  {
    assert Denote(Bin(Mul, Lit(3.0), Lit(4.0)), vars) == Ok(Fin(12.0));
  }

  lemma PrecedenceExample(c: Calculator)
    ensures EvaluateExpression(c, "2+3*4") == Ok(Fin(14.0))
  {
    PrecedenceTokens();
    PrecedenceMeaning(c.variables);
    Reads(c, "2+3*4", [Num(2.0), Op(Add), Num(3.0), Op(Mul), Num(4.0)],
      Bin(Add, Lit(2.0), Bin(Mul, Lit(3.0), Lit(4.0))), Ok(Fin(14.0)));
  }

  // "(2+3)*4": a group overrides precedence.

  lemma SumCloseText()
    ensures Render([Num(2.0), Op(Add), Num(3.0), RParen]) == "2+3)"
  {
    SpellTwo(); SpellThree();
    RenderOne(Num(2.0)); RenderOne(Op(Add)); RenderOne(Num(3.0)); RenderOne(RParen);
    RenderAppend([Num(3.0)], [RParen]);
    RenderAppend([Op(Add)], [Num(3.0), RParen]);
    RenderAppend([Num(2.0)], [Op(Add), Num(3.0), RParen]);
  }

  lemma GroupedSumText()
    ensures Render([LParen, Num(2.0), Op(Add), Num(3.0), RParen]) == "(2+3)"
  {
    SpellTwo(); SpellThree();
    SumCloseText();
    RenderOne(LParen);
    RenderAppend([LParen], [Num(2.0), Op(Add), Num(3.0), RParen]);
  }

  lemma MulFourText()
    ensures Render([Op(Mul), Num(4.0)]) == "*4"
  {
    SpellFour();
    RenderOne(Op(Mul)); RenderOne(Num(4.0));
    RenderAppend([Op(Mul)], [Num(4.0)]);
  }

  lemma GroupPrintable()
    ensures forall i :: 0 <= i < 5 ==> Printable([LParen, Num(2.0), Op(Add), Num(3.0), RParen][i])
    ensures forall i :: 0 <= i < 2 ==> Printable([Op(Mul), Num(4.0)][i])
  {
    SpellTwo(); SpellThree(); SpellFour();
  }

  lemma GroupText()
    ensures Render([LParen, Num(2.0), Op(Add), Num(3.0), RParen, Op(Mul), Num(4.0)]) == "(2+3)*4"
  {
    GroupPrintable();
    GroupedSumText();
    MulFourText();
    RenderAppend([LParen, Num(2.0), Op(Add), Num(3.0), RParen], [Op(Mul), Num(4.0)]);
    assert [LParen, Num(2.0), Op(Add), Num(3.0), RParen] + [Op(Mul), Num(4.0)]
        == [LParen, Num(2.0), Op(Add), Num(3.0), RParen, Op(Mul), Num(4.0)];
    assert "(2+3)" + "*4" == "(2+3)*4";
  }

  lemma GroupScannable()
    ensures var toks := [LParen, Num(2.0), Op(Add), Num(3.0), RParen, Op(Mul), Num(4.0)];
      (forall i :: 0 <= i < |toks| ==> Printable(toks[i])) && Separated(toks)
  {
    SpellTwo(); SpellThree(); SpellFour();
  }

  lemma GroupTokens()
    ensures Tokenize("(2+3)*4") == [LParen, Num(2.0), Op(Add), Num(3.0), RParen, Op(Mul), Num(4.0)]
  {
    GroupScannable();
    GroupText();
    Scans("(2+3)*4", [LParen, Num(2.0), Op(Add), Num(3.0), RParen, Op(Mul), Num(4.0)]);
  }

  lemma GroupMeaning(vars: Bindings)
    ensures Tokens(Bin(Mul, Group(Bin(Add, Lit(2.0), Lit(3.0))), Lit(4.0)))
         == [LParen, Num(2.0), Op(Add), Num(3.0), RParen, Op(Mul), Num(4.0)]
    ensures Denote(Bin(Mul, Group(Bin(Add, Lit(2.0), Lit(3.0))), Lit(4.0)), vars) == Ok(Fin(20.0))
  {
    assert Tokens(Group(Bin(Add, Lit(2.0), Lit(3.0)))) == [LParen, Num(2.0), Op(Add), Num(3.0), RParen];
    assert Denote(Bin(Add, Lit(2.0), Lit(3.0)), vars) == Ok(Fin(5.0));
  }

  lemma GroupExample(c: Calculator)
    ensures EvaluateExpression(c, "(2+3)*4") == Ok(Fin(20.0))
  {
    GroupTokens();
    GroupMeaning(c.variables);
    Reads(c, "(2+3)*4", [LParen, Num(2.0), Op(Add), Num(3.0), RParen, Op(Mul), Num(4.0)],
      Bin(Mul, Group(Bin(Add, Lit(2.0), Lit(3.0))), Lit(4.0)), Ok(Fin(20.0)));
  }

  // "10-2-3": equal priorities associate to the left; the right-nested
  // reading is not one the machine computes.

  lemma LeftAssociativeText()
    ensures Render([Num(10.0), Op(Sub), Num(2.0), Op(Sub), Num(3.0)]) == "10-2-3"
  {
    SpellTwo(); SpellThree(); SpellTen();
    RenderOne(Num(10.0)); RenderOne(Op(Sub)); RenderOne(Num(2.0)); RenderOne(Num(3.0));
    RenderAppend([Op(Sub)], [Num(3.0)]);
    RenderAppend([Num(2.0)], [Op(Sub), Num(3.0)]);
    RenderAppend([Op(Sub)], [Num(2.0), Op(Sub), Num(3.0)]);
    RenderAppend([Num(10.0)], [Op(Sub), Num(2.0), Op(Sub), Num(3.0)]);
  }

  lemma LeftAssociativeTokens()
    ensures Tokenize("10-2-3") == [Num(10.0), Op(Sub), Num(2.0), Op(Sub), Num(3.0)]
  {
    SpellTwo(); SpellThree(); SpellTen();
    LeftAssociativeText();
    Scans("10-2-3", [Num(10.0), Op(Sub), Num(2.0), Op(Sub), Num(3.0)]);
  }

  lemma LeftAssociativeMeaning(vars: Bindings)
    ensures Tokens(Bin(Sub, Bin(Sub, Lit(10.0), Lit(2.0)), Lit(3.0))) == [Num(10.0), Op(Sub), Num(2.0), Op(Sub), Num(3.0)]
    ensures Denote(Bin(Sub, Bin(Sub, Lit(10.0), Lit(2.0)), Lit(3.0)), vars) == Ok(Fin(5.0))
    ensures !WellFormed(Bin(Sub, Lit(10.0), Bin(Sub, Lit(2.0), Lit(3.0))))
  {
    assert Denote(Bin(Sub, Lit(10.0), Lit(2.0)), vars) == Ok(Fin(8.0));
  }

  lemma LeftAssociativeExample(c: Calculator)
    ensures EvaluateExpression(c, "10-2-3") == Ok(Fin(5.0))
  {
    LeftAssociativeTokens();
    LeftAssociativeMeaning(c.variables);
    Reads(c, "10-2-3", [Num(10.0), Op(Sub), Num(2.0), Op(Sub), Num(3.0)],
      Bin(Sub, Bin(Sub, Lit(10.0), Lit(2.0)), Lit(3.0)), Ok(Fin(5.0)));
  }

  // "5/0": division by zero gives infinity rather than an error.

  lemma DivisionTokens()
    ensures Tokenize("5/0") == [Num(5.0), Op(Div), Num(0.0)]
  {
    SpellZero(); SpellFive();
    RenderOne(Num(5.0)); RenderOne(Op(Div)); RenderOne(Num(0.0));
    RenderAppend([Op(Div)], [Num(0.0)]);
    RenderAppend([Num(5.0)], [Op(Div), Num(0.0)]);
    Scans("5/0", [Num(5.0), Op(Div), Num(0.0)]);
  }

  lemma DivisionMeaning(vars: Bindings)
    ensures Tokens(Bin(Div, Lit(5.0), Lit(0.0))) == [Num(5.0), Op(Div), Num(0.0)]
    ensures Denote(Bin(Div, Lit(5.0), Lit(0.0)), vars) == Ok(PosInf)
  {
    assert Apply(Div, Fin(5.0), Fin(0.0)) == PosInf;
  }

  lemma DivisionByZeroExample(c: Calculator)
    ensures EvaluateExpression(c, "5/0") == Ok(PosInf)
  {
    DivisionTokens();
    DivisionMeaning(c.variables);
    Reads(c, "5/0", [Num(5.0), Op(Div), Num(0.0)], Bin(Div, Lit(5.0), Lit(0.0)), Ok(PosInf));
  }

  // "x+1" and "x*2": names are looked up in the variable table.

  lemma SpellX()
    ensures Printable(Ident("x")) && Spell(Ident("x")) == "x"
  {
    assert IsIdentLexeme("x") && IsNormal("x");
  }

  lemma UnboundTokens()
    ensures Tokenize("x+1") == [Ident("x"), Op(Add), Num(1.0)]
  {
    SpellOne(); SpellX();
    RenderOne(Ident("x")); RenderOne(Op(Add)); RenderOne(Num(1.0));
    RenderAppend([Op(Add)], [Num(1.0)]);
    RenderAppend([Ident("x")], [Op(Add), Num(1.0)]);
    Scans("x+1", [Ident("x"), Op(Add), Num(1.0)]);
  }

  lemma UnboundExample()
    ensures EvaluateExpression(NewCalculator(), "x+1") == Err(UnknownVariable("x"))
  {
    UnboundTokens();
    Reads(NewCalculator(), "x+1", [Ident("x"), Op(Add), Num(1.0)], Bin(Add, Var("x"), Lit(1.0)),
      Err(UnknownVariable("x")));
  }

  lemma BoundTokens()
    ensures Tokenize("x*2") == [Ident("x"), Op(Mul), Num(2.0)]
  {
    SpellTwo(); SpellX();
    RenderOne(Ident("x")); RenderOne(Op(Mul)); RenderOne(Num(2.0));
    RenderAppend([Op(Mul)], [Num(2.0)]);
    RenderAppend([Ident("x")], [Op(Mul), Num(2.0)]);
    Scans("x*2", [Ident("x"), Op(Mul), Num(2.0)]);
  }

  lemma BoundMeaning(vars: Bindings)
    requires "x" in vars && vars["x"] == Fin(5.0)
    ensures Tokens(Bin(Mul, Var("x"), Lit(2.0))) == [Ident("x"), Op(Mul), Num(2.0)]
    ensures Denote(Bin(Mul, Var("x"), Lit(2.0)), vars) == Ok(Fin(10.0))
  {
    assert Denote(Var("x"), vars) == Ok(Fin(5.0));
  }

  lemma BoundEvaluation(c: Calculator)
    requires "x" in c.variables && c.variables["x"] == Fin(5.0)
    ensures EvaluateExpression(c, "x*2") == Ok(Fin(10.0))
  {
    BoundTokens();
    BoundMeaning(c.variables);
    Reads(c, "x*2", [Ident("x"), Op(Mul), Num(2.0)], Bin(Mul, Var("x"), Lit(2.0)), Ok(Fin(10.0)));
  }

  lemma BoundExample()
    ensures EvaluateExpression(SetVariable(NewCalculator(), "x", Fin(5.0)), "x*2") == Ok(Fin(10.0))
  {
    BoundEvaluation(SetVariable(NewCalculator(), "x", Fin(5.0)));
  }

  // "  X + 1 ": spaces are dropped and letters lowered before scanning.

  lemma NormalizeChar(ch: char)
    ensures Normalize([ch]) == if ch == ' ' then [] else [LowerChar(ch)]
  {
    assert [ch][1..] == [];
  }

  lemma NormalizeTail()
    ensures Normalize("+ 1 ") == "+1"
  {
    NormalizeSpacedOne();
    NormalizeChar('+');
    NormalizeAppend("+", " 1 ");
    assert "+" + " 1 " == "+ 1 ";
  }

  lemma NormalizeSpacedOne()
    ensures Normalize(" 1 ") == "1"
  {
    NormalizeChar(' '); NormalizeChar('1');
    NormalizeAppend("1", " ");
    assert "1" + " " == "1 ";
    assert "1" + [] == "1";
    NormalizeAppend(" ", "1 ");
    assert " " + "1 " == " 1 ";
  }

  lemma NormalizeExample()
    ensures Normalize("  X + 1 ") == "x+1"
  {
    NormalizeTail();
    NormalizeChar(' '); NormalizeChar('X');
    NormalizeAppend(" ", "+ 1 ");
    NormalizeAppend("X", " + 1 ");
    NormalizeAppend(" ", "X + 1 ");
    NormalizeAppend(" ", " X + 1 ");
  }

  lemma SpacingExample(c: Calculator)
    ensures EvaluateExpression(c, "  X + 1 ") == EvaluateExpression(c, "x+1")
  {
    NormalizeExample();
    TokenizeNormalize("  X + 1 ");
  }

  // "": an empty expression is worth 0.

  lemma EmptyExample(c: Calculator)
    ensures EvaluateExpression(c, "") == Ok(Fin(0.0))
  {
    assert Tokenize("") == [];
  }

  // Malformed input: a missing operand underflows the operand stack, and a
  // '(' left on the stack reaches the operator dispatcher.

  lemma LeadingOperatorTokens()
    ensures Tokenize("+1") == [Op(Add), Num(1.0)]
  {
    SpellOne();
    RenderOne(Op(Add)); RenderOne(Num(1.0));
    RenderAppend([Op(Add)], [Num(1.0)]);
    Scans("+1", [Op(Add), Num(1.0)]);
  }

  lemma LeadingOperatorExample(c: Calculator)
    ensures EvaluateExpression(c, "+1") == Err(Underflow)
  {
    LeadingOperatorTokens();
    LeadingOperatorRun(c.variables);
  }

  lemma LeadingOperatorRun(v: Bindings)
    ensures EvaluateTokens([Op(Add), Num(1.0)], v) == Err(Underflow)
  {
    var m0 := Machine([], []);
    var m1 := Machine([], [Pending(Add)]);
    var m2 := Machine([Fin(1.0)], [Pending(Add)]);
    assert [] + [Pending(Add)] == [Pending(Add)];
    assert [] + [Fin(1.0)] == [Fin(1.0)];
    assert Step(m0, Op(Add), v) == Ok(m1);
    assert Step(m1, Num(1.0), v) == Ok(m2);
    assert Run(m1, [Num(1.0)], v) == Ok(m2);
    assert Run(m0, [Op(Add), Num(1.0)], v) == Ok(m2);
    assert Drain(m2) == Err(Underflow);
  }

  lemma TrailingOperatorTokens()
    ensures Tokenize("1+") == [Num(1.0), Op(Add)]
  {
    SpellOne();
    RenderOne(Num(1.0)); RenderOne(Op(Add));
    RenderAppend([Num(1.0)], [Op(Add)]);
    Scans("1+", [Num(1.0), Op(Add)]);
  }

  lemma TrailingOperatorExample(c: Calculator)
    ensures EvaluateExpression(c, "1+") == Err(Underflow)
  {
    TrailingOperatorTokens();
    TrailingOperatorRun(c.variables);
  }

  lemma TrailingOperatorRun(v: Bindings)
    ensures EvaluateTokens([Num(1.0), Op(Add)], v) == Err(Underflow)
  {
    var m0 := Machine([], []);
    var m1 := Machine([Fin(1.0)], []);
    var m2 := Machine([Fin(1.0)], [Pending(Add)]);
    assert [] + [Pending(Add)] == [Pending(Add)];
    assert [] + [Fin(1.0)] == [Fin(1.0)];
    assert Step(m0, Num(1.0), v) == Ok(m1);
    assert Step(m1, Op(Add), v) == Ok(m2);
    assert Run(m1, [Op(Add)], v) == Ok(m2);
    assert Run(m0, [Num(1.0), Op(Add)], v) == Ok(m2);
    assert Drain(m2) == Err(Underflow);
  }

  lemma LoneCloseExample(c: Calculator)
    ensures EvaluateExpression(c, ")") == Err(Underflow)
  {
    RenderOne(RParen);
    Scans(")", [RParen]);
    UnmatchedCloseFails([], [], c.variables);
    assert [] + [RParen] + [] == [RParen];
  }

  lemma UnclosedRun(v: Bindings)
    ensures EvaluateTokens([LParen, Num(1.0)], v) == Err(Underflow)
  {
    var m0 := Machine([], []);
    var m1 := Machine([], [OpenParen]);
    var m2 := Machine([Fin(1.0)], [OpenParen]);
    assert [] + [OpenParen] == [OpenParen];
    assert [] + [Fin(1.0)] == [Fin(1.0)];
    assert Step(m0, LParen, v) == Ok(m1);
    assert Step(m1, Num(1.0), v) == Ok(m2);
    assert Run(m1, [Num(1.0)], v) == Ok(m2);
    assert Run(m0, [LParen, Num(1.0)], v) == Ok(m2);
    assert Drain(m2) == Err(Underflow);
  }

  lemma UnclosedExample(c: Calculator)
    ensures EvaluateExpression(c, "(1") == Err(Underflow)
  {
    SpellOne();
    RenderOne(LParen); RenderOne(Num(1.0));
    RenderAppend([LParen], [Num(1.0)]);
    Scans("(1", [LParen, Num(1.0)]);
    UnclosedRun(c.variables);
  }

  lemma UnclosedGroupText()
    ensures Render([Num(1.0), Op(Add), LParen, Num(2.0)]) == "1+(2"
  {
    SpellOne(); SpellTwo();
    RenderOne(Num(1.0)); RenderOne(Op(Add)); RenderOne(LParen); RenderOne(Num(2.0));
    RenderAppend([LParen], [Num(2.0)]);
    RenderAppend([Op(Add)], [LParen, Num(2.0)]);
    RenderAppend([Num(1.0)], [Op(Add), LParen, Num(2.0)]);
  }

  lemma UnclosedGroupRun(v: Bindings)
    ensures EvaluateTokens([Num(1.0), Op(Add), LParen, Num(2.0)], v) == Err(UnsupportedOp("("))
  {
    var m4 := Machine([Fin(1.0), Fin(2.0)], [Pending(Add), OpenParen]);
    UnclosedGroupLoop(v);
    assert Drain(m4) == Err(UnsupportedOp("("));
  }

  lemma UnclosedGroupLoop(v: Bindings)
    ensures Run(Machine([], []), [Num(1.0), Op(Add), LParen, Num(2.0)], v)
         == Ok(Machine([Fin(1.0), Fin(2.0)], [Pending(Add), OpenParen]))
  {
    var m0 := Machine([], []);
    var m1 := Machine([Fin(1.0)], []);
    var m2 := Machine([Fin(1.0)], [Pending(Add)]);
    var m3 := Machine([Fin(1.0)], [Pending(Add), OpenParen]);
    var m4 := Machine([Fin(1.0), Fin(2.0)], [Pending(Add), OpenParen]);
    assert [] + [Fin(1.0)] == [Fin(1.0)];
    assert [] + [Pending(Add)] == [Pending(Add)];
    assert [Pending(Add)] + [OpenParen] == [Pending(Add), OpenParen];
    assert [Fin(1.0)] + [Fin(2.0)] == [Fin(1.0), Fin(2.0)];
    assert Step(m0, Num(1.0), v) == Ok(m1);
    assert Reduce(m1, Priority(Add)) == Ok(m1);
    assert Step(m1, Op(Add), v) == Ok(m2);
    assert Step(m2, LParen, v) == Ok(m3);
    assert Step(m3, Num(2.0), v) == Ok(m4);
    assert Run(m3, [Num(2.0)], v) == Ok(m4);
    assert Run(m2, [LParen, Num(2.0)], v) == Ok(m4);
    assert Run(m1, [Op(Add), LParen, Num(2.0)], v) == Ok(m4);
  }

  lemma UnclosedGroupExample(c: Calculator)
    ensures EvaluateExpression(c, "1+(2") == Err(UnsupportedOp("("))
  {
    SpellOne(); SpellTwo();
    UnclosedGroupText();
    Scans("1+(2", [Num(1.0), Op(Add), LParen, Num(2.0)]);
    UnclosedGroupRun(c.variables);
  }

  // "2(3)": no operator between operands; the group is evaluated and the
  // value left at the bottom of the stack is the answer.

  lemma JuxtapositionText()
    ensures Render([Num(2.0), LParen, Num(3.0), RParen]) == "2(3)"
  {
    SpellTwo(); SpellThree();
    RenderOne(Num(2.0)); RenderOne(LParen); RenderOne(Num(3.0)); RenderOne(RParen);
    RenderAppend([Num(3.0)], [RParen]);
    RenderAppend([LParen], [Num(3.0), RParen]);
    RenderAppend([Num(2.0)], [LParen, Num(3.0), RParen]);
  }

  lemma JuxtapositionRun(v: Bindings)
    ensures EvaluateTokens([Num(2.0), LParen, Num(3.0), RParen], v) == Ok(Fin(2.0))
  {
    var m1 := Machine([Fin(2.0)], []);
    var m2 := Machine([Fin(2.0)], [OpenParen]);
    var m3 := Machine([Fin(2.0), Fin(3.0)], [OpenParen]);
    var m4 := Machine([Fin(2.0), Fin(3.0)], []);
    assert [] + [Fin(2.0)] == [Fin(2.0)];
    assert [] + [OpenParen] == [OpenParen];
    assert [Fin(2.0)] + [Fin(3.0)] == [Fin(2.0), Fin(3.0)];
    assert Step(Machine([], []), Num(2.0), v) == Ok(m1);
    assert Step(m1, LParen, v) == Ok(m2);
    assert Step(m2, Num(3.0), v) == Ok(m3);
    assert Reduce(m3, 0) == Ok(m3);
    assert Step(m3, RParen, v) == Ok(m4);
    assert Run(m3, [RParen], v) == Ok(m4);
    assert Run(m2, [Num(3.0), RParen], v) == Ok(m4);
    assert Run(m1, [LParen, Num(3.0), RParen], v) == Ok(m4);
    assert Run(Machine([], []), [Num(2.0), LParen, Num(3.0), RParen], v) == Ok(m4);
  }

  lemma JuxtapositionExample(c: Calculator)
    ensures EvaluateExpression(c, "2(3)") == Ok(Fin(2.0))
  {
    SpellTwo(); SpellThree();
    JuxtapositionText();
    Scans("2(3)", [Num(2.0), LParen, Num(3.0), RParen]);
    JuxtapositionRun(c.variables);
  }

  // Scanning: digits separated by a space join into one number, and a
  // second dot ends a number.

  lemma JoinedNormal()
    ensures Normalize("1 2") == "12"
  {
    NormalizeChar('1'); NormalizeChar(' '); NormalizeChar('2');
    NormalizeAppend(" ", "2");
    NormalizeAppend("1", " 2");
  }

  lemma JoinedDigitsExample()
    ensures Tokenize("1 2") == [Num(12.0)]
  {
    JoinedNormal();
    TokenizeNormalize("1 2");
    SpellTwelve();
    RenderOne(Num(12.0));
    Scans("12", [Num(12.0)]);
  }

  lemma DecimalOneTwo()
    ensures IsNumberLexeme("1.2") && ToToken("1.2") == Num(1.2)
  {
    assert IsNumberLexeme("1.2");
    assert RemoveDots("1.2") == "12";
    assert IntegerPart("1.2") == "1";
    assert FractionPart("1.2") == "2";
    assert DecimalValue("1.2") == 1.2;
  }

  lemma ThreeLexemes()
    ensures FindAll("3") == ["3"]
  {
    assert "3" == "3" + [];
    FindAllLexeme("3", []);
  }

  lemma DotThreeLexemes()
    ensures FindAll(".3") == ["3"]
  {
    ThreeLexemes();
    assert !IsDigit('.') && !IsIdentStart('.') && !IsOperatorChar('.');
    assert ".3"[0] == '.' && ".3"[1..] == "3";
  }

  lemma SecondDotLexemes()
    ensures FindAll("1.2.3") == ["1.2", "3"]
  {
    DotThreeLexemes();
    assert "1.2.3" == "1.2" + ".3";
    assert IsNumberLexeme("1.2") && '.' in "1.2";
    FindAllLexeme("1.2", ".3");
  }

  lemma SecondDotNormal()
    ensures Normalize("1.2.3") == "1.2.3"
  {
    assert IsNormal("1.2.3");
    NormalizeFixed("1.2.3");
  }

  lemma ThreeToken()
    ensures IsLexeme("3") && ToToken("3") == Num(3.0)
  {
    SpellThree();
  }

  /** The tokens of a text that scans to two lexemes. */
  lemma TokenizeTwo(text: string, a: string, b: string)
    requires FindAll(Normalize(text)) == [a, b]
    ensures IsLexeme(a) && IsLexeme(b)
    ensures Tokenize(text) == [ToToken(a), ToToken(b)]
  {
    var lexemes := FindAll(Normalize(text));
    assert lexemes[0] == a && lexemes[1] == b;
    var r := Tokenize(text);
    PairEq(r, ToToken(a), ToToken(b));
  }

  lemma PairEq<T>(r: seq<T>, x: T, y: T)
    requires |r| == 2 && r[0] == x && r[1] == y
    ensures r == [x, y]
  {
  }

  lemma SecondDotExample()
    ensures Tokenize("1.2.3") == [Num(1.2), Num(3.0)]
  {
    SecondDotNormal();
    SecondDotLexemes();
    TokenizeTwo("1.2.3", "1.2", "3");
    DecimalOneTwo();
    ThreeToken();
  }
}
