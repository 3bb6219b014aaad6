/** The tokenizer of `calculator.py` (`Calculator.parse_expression`): it
    deletes every `' '`, lower-cases, scans for the matches of
    `\d+\.?\d*`, `[a-zA-Z_][a-zA-Z0-9_]*` or one of `+ - * / ( )` left to right
    (skipping any other character), and turns number lexemes into values. */
module Lexer {
  import opened Text
  import opened Arithmetic

  /** A token as the evaluator consumes it. */
  datatype Token = Num(value: real) | Ident(name: string) | Op(op: Operator) | LParen | RParen

  predicate IsDigit(c: char) {
    '0' <= c <= '9'
  }

  predicate IsIdentStart(c: char) {
    'a' <= c <= 'z' || 'A' <= c <= 'Z' || c == '_'
  }

  predicate IsIdentChar(c: char) {
    IsIdentStart(c) || IsDigit(c)
  }

  predicate IsOperatorChar(c: char) {
    c == '+' || c == '-' || c == '*' || c == '/' || c == '(' || c == ')'
  }

  // ---------------------------------------------------------------------
  // Normalisation: `expression.replace(' ', '').lower()`.
  // ---------------------------------------------------------------------

  /** `replace(' ', '')`: only the ASCII space is removed, not tabs. */
  function RemoveSpaces(s: string): (r: string)
    ensures |r| <= |s|
    ensures forall i :: 0 <= i < |r| ==> r[i] != ' ' && r[i] in s
    ensures (forall i :: 0 <= i < |s| ==> s[i] != ' ') ==> r == s
    decreases |s|
  {
    if s == [] then []
    else (if s[0] == ' ' then [] else [s[0]]) + RemoveSpaces(s[1..])
  }

  function Normalize(s: string): (r: string)
    ensures |r| <= |s|
    ensures forall i :: 0 <= i < |r| ==> r[i] != ' ' && !IsAsciiUpper(r[i])
  {
    Lower(RemoveSpaces(s))
  }

  predicate IsNormal(s: string) {
    forall i :: 0 <= i < |s| ==> s[i] != ' ' && !IsAsciiUpper(s[i])
  }

  lemma {:induction false} RemoveSpacesAppend(a: string, b: string)
    ensures RemoveSpaces(a + b) == RemoveSpaces(a) + RemoveSpaces(b)
    decreases |a|
  {
    if a != [] {
      var head := if a[0] == ' ' then [] else [a[0]];
      assert (a + b)[0] == a[0];
      assert (a + b)[1..] == a[1..] + b;
      assert RemoveSpaces(a + b) == head + RemoveSpaces(a[1..] + b);
      RemoveSpacesAppend(a[1..], b);
      assert RemoveSpaces(a) == head + RemoveSpaces(a[1..]);
    } else {
      assert a + b == b;
    }
  }

  /** Normalisation works character by character, so it distributes over
      concatenation. */
  lemma NormalizeAppend(a: string, b: string)
    ensures Normalize(a + b) == Normalize(a) + Normalize(b)
  {
    RemoveSpacesAppend(a, b);
  }

  /** A string without spaces or ASCII capitals is already normal. */
  lemma NormalizeFixed(s: string)
    requires IsNormal(s)
    ensures Normalize(s) == s
  {
  }

  /** Normalising twice is normalising once; hence the tokens of an
      expression do not depend on its spaces or letter case. */
  lemma NormalizeIdempotent(s: string)
    ensures Normalize(Normalize(s)) == Normalize(s)
  {
    NormalizeFixed(Normalize(s));
  }

  // ---------------------------------------------------------------------
  // The three token patterns.
  // ---------------------------------------------------------------------

  /** The language of `\d+\.?\d*`: digits and at most one dot, starting with
      a digit. */
  predicate IsNumberLexeme(t: string) {
    && |t| > 0 && IsDigit(t[0])
    && (forall i :: 0 <= i < |t| ==> IsDigit(t[i]) || t[i] == '.')
    && (forall i, j :: 0 <= i < j < |t| && t[i] == '.' ==> t[j] != '.')
  }

  /** The language of `[a-zA-Z_][a-zA-Z0-9_]*`. */
  predicate IsIdentLexeme(t: string) {
    |t| > 0 && IsIdentStart(t[0]) && forall i :: 0 <= i < |t| ==> IsIdentChar(t[i])
  }

  /** The language of `[\+\-\*\/\(\)]`. */
  predicate IsOperatorLexeme(t: string) {
    |t| == 1 && IsOperatorChar(t[0])
  }

  predicate IsLexeme(t: string) {
    IsNumberLexeme(t) || IsIdentLexeme(t) || IsOperatorLexeme(t)
  }

  function DigitsEnd(s: string, i: nat): (j: nat)
    requires i <= |s|
    ensures i <= j <= |s|
    ensures forall k :: i <= k < j ==> IsDigit(s[k])
    ensures j < |s| ==> !IsDigit(s[j])
    decreases |s| - i
  {
    if i < |s| && IsDigit(s[i]) then DigitsEnd(s, i + 1) else i
  }

  /** Length of the greedy match of `\d+\.?\d*` at the start of `s`: it is a
      number lexeme and no longer prefix of `s` is one. */
  function NumberLength(s: string): (n: nat)
    requires |s| > 0 && IsDigit(s[0])
    ensures 0 < n <= |s|
    ensures IsNumberLexeme(s[..n])
    ensures forall k :: n < k <= |s| ==> !IsNumberLexeme(s[..k])
  {
    var i := DigitsEnd(s, 0);
    if i < |s| && s[i] == '.' then
      var j := DigitsEnd(s, i + 1);
      assert forall k :: j < k <= |s| ==> s[..k][i] == '.' && s[..k][j] == s[j];
      j
    else
      assert forall k :: i < k <= |s| ==> s[..k][i] == s[i];
      i
  }

  function IdentCharsEnd(s: string, i: nat): (j: nat)
    requires i <= |s|
    ensures i <= j <= |s|
    ensures forall k :: i <= k < j ==> IsIdentChar(s[k])
    ensures j < |s| ==> !IsIdentChar(s[j])
    decreases |s| - i
  {
    if i < |s| && IsIdentChar(s[i]) then IdentCharsEnd(s, i + 1) else i
  }

  /** Length of the greedy match of `[a-zA-Z_][a-zA-Z0-9_]*` at the start of
      `s`: it is an identifier and no longer prefix of `s` is one. */
  function IdentLength(s: string): (n: nat)
    requires |s| > 0 && IsIdentStart(s[0])
    ensures 0 < n <= |s|
    ensures IsIdentLexeme(s[..n])
    ensures forall k :: n < k <= |s| ==> !IsIdentLexeme(s[..k])
  {
    var n := IdentCharsEnd(s, 1);
    assert forall k :: n < k <= |s| ==> s[..k][n] == s[n];
    n
  }

  /** `re.findall(pattern, expression)`: at each position the one pattern
      whose first character fits is matched greedily; a position where none
      fits is skipped. */
  function FindAll(s: string): (r: seq<string>)
    ensures forall i :: 0 <= i < |r| ==> IsLexeme(r[i])
    ensures forall i, k :: 0 <= i < |r| && 0 <= k < |r[i]| ==> r[i][k] in s
    decreases |s|
  {
    if s == [] then []
    else if IsDigit(s[0]) then
      var n := NumberLength(s);
      [s[..n]] + FindAll(s[n..])
    else if IsIdentStart(s[0]) then
      var n := IdentLength(s);
      [s[..n]] + FindAll(s[n..])
    else if IsOperatorChar(s[0]) then
      [s[..1]] + FindAll(s[1..])
    else
      FindAll(s[1..])
  }

  /** A position that starts no lexeme (a `^`, a lone `.`, a non-ASCII
      letter) is skipped without complaint. */
  lemma FindAllSkip(c: char, rest: string)
    requires !IsDigit(c) && !IsIdentStart(c) && !IsOperatorChar(c)
    ensures FindAll([c] + rest) == FindAll(rest)
  {
    assert ([c] + rest)[1..] == rest;
  }

  // ---------------------------------------------------------------------
  // Number values: `float(token)` over exact reals.
  // ---------------------------------------------------------------------

  predicate AllDigits(s: string) {
    forall i :: 0 <= i < |s| ==> IsDigit(s[i])
  }

  function DigitValue(c: char): (d: nat)
    requires IsDigit(c)
    ensures d < 10
  {
    c as int - '0' as int
  }

  function DigitChar(d: nat): (c: char)
    requires d < 10
    ensures IsDigit(c) && DigitValue(c) == d
  {
    ('0' as int + d) as char
  }

  /** The natural number a string of decimal digits denotes. */
  function DigitsValue(ds: string): (n: nat)
    requires AllDigits(ds)
    ensures n < Pow10(|ds|)
    decreases |ds|
  {
    if ds == [] then 0
    else 10 * DigitsValue(ds[..|ds| - 1]) + DigitValue(ds[|ds| - 1])
  }

  function Pow10(k: nat): (p: nat)
    ensures p >= 1
  {
    if k == 0 then 1 else 10 * Pow10(k - 1)
  }

  /** Position of the dot in a number lexeme, or its length if it has none. */
  function DotIndex(t: string): (d: nat)
    ensures d <= |t|
    ensures forall k :: 0 <= k < d ==> t[k] != '.'
    ensures d < |t| ==> t[d] == '.'
    decreases |t|
  {
    if t == [] || t[0] == '.' then 0 else 1 + DotIndex(t[1..])
  }

  function IntegerPart(t: string): (ds: string)
    requires IsNumberLexeme(t)
    ensures |ds| > 0 && AllDigits(ds)
  {
    t[..DotIndex(t)]
  }

  function FractionPart(t: string): (ds: string)
    requires IsNumberLexeme(t)
    ensures AllDigits(ds)
  {
    var d := DotIndex(t);
    if d < |t| then t[d + 1..] else []
  }

  /** The value `float(t)` stands for, taken exactly: the integer digits plus
      the fraction digits scaled down. Its whole part is exactly the integer
      digits. */
  function DecimalValue(t: string): (v: real)
    requires IsNumberLexeme(t)
    ensures DigitsValue(IntegerPart(t)) as real <= v < (DigitsValue(IntegerPart(t)) + 1) as real
  {
    var f := FractionPart(t);
    var scaled := DigitsValue(f) as real / Pow10(|f|) as real;
    ProperFraction(DigitsValue(f), Pow10(|f|));
    DigitsValue(IntegerPart(t)) as real + scaled
  }

  /** `v` with the dot moved `k` places to the right. */
  function Shift(v: real, k: nat): real {
    v * Pow10(k) as real
  }

  /** The value is the number the dot-free digits denote (the digits
      `replace('.', '')` tests), scaled down by one power of ten per
      fraction digit. */
  lemma DecimalScaled(t: string)
    requires IsNumberLexeme(t)
    ensures AllDigits(RemoveDots(t))
    ensures Shift(DecimalValue(t), |FractionPart(t)|) == DigitsValue(RemoveDots(t)) as real
  {
    var f := FractionPart(t);
    DecimalDigits(t);
    ShiftFraction(DecimalValue(t), DigitsValue(IntegerPart(t)), DigitsValue(f), |f|, DigitsValue(RemoveDots(t)));
  }

  lemma ShiftFraction(v: real, i: nat, n: nat, k: nat, m: nat)
    requires v == i as real + n as real / Pow10(k) as real
    requires m == i * Pow10(k) + n
    ensures Shift(v, k) == m as real
  {
    var p := Pow10(k) as real;
    assert n as real / p * p == n as real;
  }

  /** The dot-free digits of a number lexeme are its integer digits followed
      by its fraction digits, and denote their combined value. */
  lemma DecimalDigits(t: string)
    requires IsNumberLexeme(t)
    ensures RemoveDots(t) == IntegerPart(t) + FractionPart(t)
    ensures AllDigits(RemoveDots(t)) && |RemoveDots(t)| > 0
    ensures DigitsValue(RemoveDots(t))
         == DigitsValue(IntegerPart(t)) * Pow10(|FractionPart(t)|) + DigitsValue(FractionPart(t))
  {
    DotFreeSplit(t);
    DigitsValueConcat(IntegerPart(t), FractionPart(t));
  }

  /** Dropping the dots from the dot and the digits after it leaves the
      fraction digits. */
  lemma FractionDotFree(t: string)
    requires IsNumberLexeme(t) && DotIndex(t) < |t|
    ensures RemoveDots(t[DotIndex(t)..]) == FractionPart(t)
  {
    var d := DotIndex(t);
    var tail := t[d + 1..];
    assert RemoveDots(tail) == tail by {
      assert t[d] == '.';
      forall k | 0 <= k < |tail| ensures tail[k] != '.' {
        assert tail[k] == t[d + 1 + k];
      }
    }
    DropCons(t, d);
    RemoveDotsCons('.', tail);
    EmptyAppend(tail);
  }

  lemma SplitHead<T>(a: seq<T>, b: seq<T>)
    requires |a| > 0
    ensures a == [a[0]] + a[1..]
    ensures a + b == [a[0]] + (a[1..] + b)
  {
  }

  lemma AppendAssoc<T>(x: seq<T>, y: seq<T>, z: seq<T>)
    ensures x + (y + z) == (x + y) + z
  {
  }

  lemma DropCons<T>(s: seq<T>, d: nat)
    requires d < |s|
    ensures s[d..] == [s[d]] + s[d + 1..]
  {
  }

  lemma EmptyAppend<T>(s: seq<T>)
    ensures [] + s == s
  {
  }

  lemma DotFreeSplit(t: string)
    requires IsNumberLexeme(t)
    ensures RemoveDots(t) == IntegerPart(t) + FractionPart(t)
  {
    var d := DotIndex(t);
    var ip := t[..d];
    assert IntegerPart(t) == ip;
    assert forall k :: 0 <= k < |ip| ==> ip[k] != '.';
    assert RemoveDots(ip) == ip;
    assert t == ip + t[d..];
    RemoveDotsAppend(ip, t[d..]);
    if d < |t| {
      FractionDotFree(t);
      assert RemoveDots(t) == ip + FractionPart(t);
    } else {
      assert t[d..] == [];
      assert FractionPart(t) == [];
      assert RemoveDots(t) == ip + [];
    }
  }

  /** The lexemes whose dot-free form passes `isdigit()` are exactly the
      number lexemes. */
  lemma NumberDigits(lex: string)
    requires IsLexeme(lex)
    ensures IsDigitString(RemoveDots(lex)) <==> IsNumberLexeme(lex)
  {
    if IsNumberLexeme(lex) {
      DecimalDigits(lex);
    }
  }

  lemma RemoveDotsCons(c: char, x: string)
    ensures RemoveDots([c] + x) == (if c == '.' then [] else [c]) + RemoveDots(x)
  {
    assert ([c] + x)[1..] == x;
  }

  lemma {:induction false} RemoveDotsAppend(a: string, b: string)
    ensures RemoveDots(a + b) == RemoveDots(a) + RemoveDots(b)
    decreases |a|
  {
    if a == [] {
      assert a + b == b;
    } else {
      var c, x := a[0], a[1..];
      SplitHead(a, b);
      RemoveDotsCons(c, x + b);
      RemoveDotsCons(c, x);
      RemoveDotsAppend(x, b);
      AppendAssoc(if c == '.' then [] else [c], RemoveDots(x), RemoveDots(b));
    }
  }

  lemma MulTen(x: int, p: int)
    ensures 10 * (x * p) == x * (10 * p)
  {
  }

  /** Writing digits after others shifts the first ones' value left. */
  lemma {:induction false} DigitsValueConcat(a: string, b: string)
    requires AllDigits(a) && AllDigits(b)
    ensures AllDigits(a + b)
    ensures DigitsValue(a + b) == DigitsValue(a) * Pow10(|b|) + DigitsValue(b)
    decreases |b|
  {
    if b == [] {
      assert a + b == a;
    } else {
      var b' := b[..|b| - 1];
      var c := b[|b| - 1];
      assert (a + b)[..|a + b| - 1] == a + b';
      assert (a + b)[|a + b| - 1] == c;
      DigitsValueConcat(a, b');
      var x := DigitsValue(a);
      var p := Pow10(|b'|);
      calc {
        DigitsValue(a + b);
        10 * DigitsValue(a + b') + DigitValue(c);
        10 * (x * p + DigitsValue(b')) + DigitValue(c);
        { MulTen(x, p); }
        x * (10 * p) + (10 * DigitsValue(b') + DigitValue(c));
      }
    }
  }

  lemma ProperFraction(n: nat, d: nat)
    requires n < d
    ensures 0.0 <= n as real / d as real < 1.0
  {
  }

  /** A lexeme without a dot is read as the integer its digits denote. */
  lemma IntegerLexemeValue(t: string)
    requires IsNumberLexeme(t)
    requires forall k :: 0 <= k < |t| ==> t[k] != '.'
    ensures DecimalValue(t) == DigitsValue(t) as real
  {
    DotIndexAbsent(t);
    assert IntegerPart(t) == t;
    assert FractionPart(t) == [];
    var f := FractionPart(t);
    assert DigitsValue(f) == 0;
  }

  lemma DotIndexAbsent(t: string)
    requires forall k :: 0 <= k < |t| ==> t[k] != '.'
    ensures DotIndex(t) == |t|
  {
  }

  /** `"12."` is read as `12.0`: a trailing dot adds nothing. */
  lemma TrailingDotValue(t: string)
    requires IsNumberLexeme(t)
    requires forall k :: 0 <= k < |t| ==> t[k] != '.'
    ensures IsNumberLexeme(t + ".")
    ensures DecimalValue(t + ".") == DecimalValue(t)
  {
    var u := t + ".";
    DotIndexPrefix(u, |t|);
    assert IntegerPart(u) == t;
    assert FractionPart(u) == [];
    IntegerLexemeValue(t);
    var f := FractionPart(u);
    assert DigitsValue(f) == 0;
  }

  /** `"1.50"` is read as `1.5`: a trailing zero after the dot adds nothing. */
  lemma TrailingZeroValue(t: string)
    requires IsNumberLexeme(t)
    requires exists k :: 0 <= k < |t| && t[k] == '.'
    ensures IsNumberLexeme(t + "0")
    ensures DecimalValue(t + "0") == DecimalValue(t)
  {
    var u := t + "0";
    AppendDigitLexeme(t, '0');
    var d := DotIndex(t);
    assert d < |t|;
    assert u[d] == '.';
    DotIndexPrefix(u, d);
    assert IntegerPart(u) == IntegerPart(t);
    var f := FractionPart(t);
    assert FractionPart(u) == f + "0";
    DigitsValueAppend(f, '0');
    ScaleFraction(DigitsValue(f), Pow10(|f|));
  }

  lemma AppendDigitLexeme(t: string, c: char)
    requires IsNumberLexeme(t) && IsDigit(c)
    ensures IsNumberLexeme(t + [c])
  {
    var u := t + [c];
    assert forall i :: 0 <= i < |t| ==> u[i] == t[i];
  }

  lemma DigitsValueAppend(ds: string, c: char)
    requires AllDigits(ds) && IsDigit(c)
    ensures AllDigits(ds + [c])
    ensures DigitsValue(ds + [c]) == 10 * DigitsValue(ds) + DigitValue(c)
  {
    assert (ds + [c])[..|ds|] == ds;
  }

  lemma ScaleFraction(a: nat, p: nat)
    requires p >= 1
    ensures (10 * a) as real / (10 * p) as real == a as real / p as real
  {
  }

  lemma DotIndexPrefix(u: string, d: nat)
    requires d < |u| && u[d] == '.'
    requires forall k :: 0 <= k < d ==> u[k] != '.'
    ensures DotIndex(u) == d
  {
  }

  // ---------------------------------------------------------------------
  // From lexemes to tokens (the loop over `tokens` in `parse_expression`).
  // ---------------------------------------------------------------------

  /** `token.replace('.', '')`. */
  function RemoveDots(s: string): (r: string)
    ensures forall i :: 0 <= i < |r| ==> r[i] != '.'
    ensures (forall i :: 0 <= i < |s| ==> s[i] != '.') ==> r == s
    ensures |s| > 0 && s[0] != '.' ==> |r| > 0 && r[0] == s[0]
    decreases |s|
  {
    if s == [] then []
    else (if s[0] == '.' then [] else [s[0]]) + RemoveDots(s[1..])
  }

  /** `str.isdigit()` restricted to ASCII digits: non-empty and all digits. */
  predicate IsDigitString(s: string) {
    |s| > 0 && AllDigits(s)
  }

  /** One lexeme becomes one token: a lexeme whose dot-free form is all
      digits is a number; an operator character is an operator or
      parenthesis; anything else is a variable name. */
  function ToToken(lex: string): (t: Token)
    requires IsLexeme(lex)
    ensures t.Num? <==> IsNumberLexeme(lex)
    ensures t.Num? ==> t.value >= 0.0 && t.value.Floor == DigitsValue(IntegerPart(lex))
    ensures t.Num? ==> AllDigits(RemoveDots(lex))
    ensures t.Num? ==> Shift(t.value, |FractionPart(lex)|) == DigitsValue(RemoveDots(lex)) as real
    ensures t.Ident? <==> IsIdentLexeme(lex)
    ensures t.Ident? ==> t.name == lex
    ensures t.Op? || t.LParen? || t.RParen? <==> IsOperatorLexeme(lex)
  {
    NumberDigits(lex);
    if IsDigitString(RemoveDots(lex)) then
      DecimalScaled(lex);
      Num(DecimalValue(lex))
    else if lex == "(" then LParen
    else if lex == ")" then RParen
    else
      match ParseOperator(lex)
      case Some(o) => Op(o)
      case None => Ident(lex)
  }

  /** `parse_expression`. */
  function Tokenize(expression: string): (r: seq<Token>)
    ensures |r| == |FindAll(Normalize(expression))|
    ensures forall i :: 0 <= i < |r| ==> Lexical(r[i])
    ensures forall i :: 0 <= i < |r| ==> r[i] == ToToken(FindAll(Normalize(expression))[i])
  {
    var s := Normalize(expression);
    var lexemes := FindAll(s);
    LexemesLexical(s, lexemes);
    seq(|lexemes|, i requires 0 <= i < |lexemes| => ToToken(lexemes[i]))
  }

  /** The lexemes of a normal text become tokens the tokenizer can produce. */
  lemma LexemesLexical(s: string, lexemes: seq<string>)
    requires IsNormal(s)
    requires forall i :: 0 <= i < |lexemes| ==> IsLexeme(lexemes[i])
    requires forall i, k :: 0 <= i < |lexemes| && 0 <= k < |lexemes[i]| ==> lexemes[i][k] in s
    ensures forall i :: 0 <= i < |lexemes| ==> Lexical(ToToken(lexemes[i]))
  {
    forall i | 0 <= i < |lexemes|
      ensures Lexical(ToToken(lexemes[i]))
    {
      var lex := lexemes[i];
      assert IsNormal(lex) by {
        forall k | 0 <= k < |lex| ensures lex[k] != ' ' && !IsAsciiUpper(lex[k]) {
          assert lex[k] in s;
        }
      }
    }
  }

  /** What the tokenizer can produce: non-negative numbers, and names that
      are lower-case identifiers. */
  predicate Lexical(t: Token) {
    && (t.Num? ==> t.value >= 0.0)
    && (t.Ident? ==> IsIdentLexeme(t.name) && IsNormal(t.name))
  }

  /** Whitespace and letter case do not matter: an expression and its
      normal form have the same tokens. */
  lemma TokenizeNormalize(s: string)
    ensures Tokenize(Normalize(s)) == Tokenize(s)
  {
    NormalizeIdempotent(s);
  }

  // ---------------------------------------------------------------------
  // Printing tokens back, and the round trip through the tokenizer.
  // ---------------------------------------------------------------------

  /** The decimal digits of a natural number. */
  function NatToDecimal(n: nat): (s: string)
    ensures IsDigitString(s) && IsNumberLexeme(s)
    ensures DigitsValue(s) == n
    decreases n
  {
    if n < 10 then [DigitChar(n)]
    else
      var p := NatToDecimal(n / 10);
      AppendDigitLexeme(p, DigitChar(n % 10));
      DigitsValueAppend(p, DigitChar(n % 10));
      p + [DigitChar(n % 10)]
  }

  predicate IsNatural(x: real) {
    x >= 0.0 && x == x.Floor as real
  }

  /** Tokens that have a spelling the tokenizer reads back: whole numbers,
      and names that are lower-case identifiers. */
  predicate Printable(t: Token) {
    match t
    case Num(x) => IsNatural(x)
    case Ident(n) => IsIdentLexeme(n) && IsNormal(n)
    case _ => true
  }

  /** The text of one token; the tokenizer turns it back into that token. */
  function Spell(t: Token): (s: string)
    requires Printable(t)
    ensures IsLexeme(s) && IsNormal(s)
    ensures ToToken(s) == t
  {
    match t
    case Num(x) =>
      var s := NatToDecimal(x.Floor as nat);
      IntegerLexemeValue(s);
      s
    case Ident(n) => n
    case Op(o) => Symbol(o)
    case LParen => "("
    case RParen => ")"
  }

  /** Numbers and names: the tokens whose lexemes can run into each other. */
  predicate IsWord(t: Token) {
    t.Num? || t.Ident?
  }

  /** No two words are adjacent, so concatenated spellings do not merge. */
  predicate Separated(toks: seq<Token>) {
    forall i :: 0 <= i < |toks| - 1 ==> !(IsWord(toks[i]) && IsWord(toks[i + 1]))
  }

  function Render(toks: seq<Token>): (s: string)
    requires forall i :: 0 <= i < |toks| ==> Printable(toks[i])
    ensures IsNormal(s)
    ensures toks != [] ==> s != [] && s[0] == Spell(toks[0])[0]
  {
    if toks == [] then [] else Spell(toks[0]) + Render(toks[1..])
  }

  /** Whether character `c` would extend lexeme `x` if it followed it: a
      digit extends a number, a dot extends a number without one, and an
      identifier character extends an identifier. */
  predicate Extends(x: string, c: char) {
    || (IsNumberLexeme(x) && (IsDigit(c) || (c == '.' && '.' !in x)))
    || (IsIdentLexeme(x) && IsIdentChar(c))
  }

  /** A lexeme followed by a character that cannot extend it is scanned as
      exactly that lexeme. */
  lemma {:induction false} FindAllLexeme(x: string, rest: string)
    requires IsLexeme(x)
    requires rest == [] || !Extends(x, rest[0])
    ensures FindAll(x + rest) == [x] + FindAll(rest)
  {
    var s := x + rest;
    assert s[..|x|] == x;
    assert s[|x|..] == rest;
    if IsNumberLexeme(x) {
      if '.' in x {
        var d :| 0 <= d < |x| && x[d] == '.';
        assert forall n :: |x| < n <= |s| ==> s[..n][d] == '.' && s[..n][|x|] == rest[0];
      }
      assert NumberLength(s) == |x|;
    } else if IsIdentLexeme(x) {
      assert IdentLength(s) == |x|;
    } else {
      assert s[..1] == x;
    }
  }

  /** The spellings of a sequence of tokens, one lexeme each. */
  function SpellAll(toks: seq<Token>): (r: seq<string>)
    requires forall i :: 0 <= i < |toks| ==> Printable(toks[i])
    ensures |r| == |toks|
    ensures forall i :: 0 <= i < |toks| ==> r[i] == Spell(toks[i])
  {
    if toks == [] then [] else [Spell(toks[0])] + SpellAll(toks[1..])
  }

  /** Scanning printed, separated tokens yields exactly their spellings. */
  lemma {:induction false} FindAllRender(toks: seq<Token>)
    requires forall i :: 0 <= i < |toks| ==> Printable(toks[i])
    requires Separated(toks)
    ensures FindAll(Render(toks)) == SpellAll(toks)
  {
    if toks != [] {
      var rest := toks[1..];
      assert Separated(rest) by {
        assert forall i :: 0 <= i < |rest| ==> rest[i] == toks[i + 1];
      }
      FindAllRender(rest);
      NextCannotExtend(toks);
      FindAllLexeme(Spell(toks[0]), Render(rest));
    }
  }

  lemma NextCannotExtend(toks: seq<Token>)
    requires |toks| > 0
    requires forall i :: 0 <= i < |toks| ==> Printable(toks[i])
    requires Separated(toks)
    ensures var r := Render(toks[1..]); r == [] || !Extends(Spell(toks[0]), r[0])
  {
    if |toks| > 1 {
      assert IsWord(toks[0]) ==> !IsWord(toks[1]);
      assert toks[1..][0] == toks[1];
    }
  }

  /** Round trip: tokenizing the printed form of separated, printable
      tokens gives the tokens back. */
  lemma TokenizeRender(toks: seq<Token>)
    requires forall i :: 0 <= i < |toks| ==> Printable(toks[i])
    requires Separated(toks)
    ensures Tokenize(Render(toks)) == toks
  {
    NormalizeFixed(Render(toks));
    FindAllRender(toks);
  }
}
