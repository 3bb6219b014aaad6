# Calculator, appeal-form validators and the bearer-token dependency

This project models three small pieces of a collection of Python web-service
exercises, and proves what each of them promises.

* **The expression calculator** (`calculator.py`, class `Calculator`) works in two steps.
  * `parse_expression` removes ASCII spaces, lower-cases the text and cuts it into lexemes with
    the regular expression `\d+\.?\d*|[a-zA-Z_][a-zA-Z0-9_]*|[+\-*/()]`. Each lexeme becomes a
    number, a variable name or an operator. A character that starts no lexeme is dropped
    silently, so `2^3` becomes the two numbers 2 and 3.
  * `evaluate_tokens` evaluates the tokens with two stacks, one for operands and one for
    operators, in the usual operator-precedence way. `*` and `/` bind tighter than `+` and `-`,
    and equal priorities associate to the left.
  * `basic_operation` applies one operator. Division by zero yields positive infinity.
  * `set_variable` and `clear` maintain the variable table.
* **The appeal-form validators** (`rppr-2/models.py`, `AppealCreate`) check three fields.
  * The surname and the first name must be one capitalised word of Russian Cyrillic letters:
    `^[А-ЯЁ][а-яё]*$`.
  * The phone number must fit a Russian mobile-number pattern.
  * Each value is stripped of surrounding whitespace first, and the stripped value is the one
    kept.
* **`get_current_user`** (`rppr-final-1-itog/app/dependencies.py`) reads the `Authorization`
  header as `Bearer <token>`. The scheme is compared without regard to case. The token is then
  looked up in the session store.

Modules, in dependency order:

* `Wrappers`: `Option` and `Result`.
* `Text`: `str.isspace`, `strip`, `split()` and ASCII `lower`.
* `Arithmetic`: values, operators, `basic_operation` and `get_priority`.
* `Lexer`: `parse_expression`.
* `Evaluator`: `evaluate_tokens`, written as a fold of a stack machine over the tokens.
* `Reference`: a syntax tree with its denotation. This is the independent definition the
  evaluator is proved against.
* `Session`: the `Calculator` object.
* `Pattern`: anchored patterns and the backtracking matcher `re.match` runs on them, proved to
  decide their language.
* `Appeal`: the three validators.
* `Auth`: `get_current_user`.
* `CalculatorExamples`, `AppealExamples` and `AuthExamples`: concrete inputs and the results the
  model gives for them.

A calculator value is `Fin(x)` for an exact real, or `PosInf`, `NegInf` or `NaN`. Once a
non-finite value is present, the non-finite values follow the IEEE-754 rules.

## Model

| member | source | states |
|---|---|---|
| Arithmetic.ParseOperator | calculator.py:11-18 | Exactly the four one-character keys `+ - * /` are operators; the operator found spells back to the key. |
| Arithmetic.BasicOperation | calculator.py:9-21 | Succeeds exactly for the four operator keys. Otherwise it fails with the unsupported-operation error naming the key. On finite operands it gives the sum, difference, product or quotient. Division by an exact zero gives positive infinity instead of failing. |
| Arithmetic.Priority | calculator.py:85-93 | Every operator has priority 1 or 2. Priority 2 is held exactly by `*` and `/`. |
| Arithmetic.Plus | calculator.py:12 | Adds finite values exactly. The result is NaN exactly when an operand is NaN or two opposite infinities meet. |
| Arithmetic.Minus | calculator.py:13 | Subtracts finite values exactly. An infinity minus the same infinity is NaN, and a NaN operand gives NaN. |
| Arithmetic.Times | calculator.py:14 | Multiplies finite values exactly. An infinity times zero is NaN, in either order, and a NaN operand gives NaN. |
| Arithmetic.Quotient | calculator.py:15 | Divides a finite value by a non-zero finite divisor exactly. A finite value divided by an infinity is zero, and a NaN operand gives NaN. The zero divisor is excluded here because the lambda never divides by it. |
| Arithmetic.Apply | calculator.py:11-15 | On finite operands each operator gives the exact sum, difference, product or quotient. Division by an exact zero gives positive infinity, even for a NaN dividend, because the lambda tests the divisor before dividing. In every other case a NaN operand gives NaN. |
| Lexer.RemoveSpaces | calculator.py:26 | Removes every ASCII space and keeps only characters of the input. A text without spaces is left unchanged. |
| Lexer.Normalize | calculator.py:26 | The normalised text has no ASCII space and no ASCII capital, and is no longer than the input. |
| Lexer.NormalizeIdempotent | calculator.py:26 | Normalising twice is the same as normalising once. |
| Lexer.NormalizeAppend | calculator.py:26 | Normalisation distributes over concatenation. |
| Lexer.NumberLength | calculator.py:29 | The number alternative `\d+\.?\d*` takes the longest prefix that is a number lexeme; no longer prefix is one. |
| Lexer.IdentLength | calculator.py:29 | The name alternative takes the longest prefix that is a name lexeme. |
| Lexer.FindAll | calculator.py:29-30 | `re.findall` over the normalised text: every piece found is a lexeme built from characters of the text. |
| Lexer.FindAllSkip | calculator.py:29-30 | A character that can start no lexeme, such as `^`, a lone `.` or a non-ASCII letter, is skipped without error, and the scan goes on after it. |
| Lexer.FindAllLexeme | calculator.py:29-30 | A lexeme followed by a character that cannot extend it is found as that lexeme, then the scan continues after it. |
| Lexer.DecimalValue | calculator.py:35 | `float(token)` of a number lexeme lies between its integer part and the next integer. |
| Lexer.DecimalDigits | calculator.py:34 | The dot-free form of a number lexeme, the string `replace('.', '')` tests, is its integer digits followed by its fraction digits. It is all digits and non-empty. It denotes the integer digits' value shifted left past the fraction digits, plus the fraction digits' value. |
| Lexer.NumberDigits | calculator.py:34 | Among lexemes, the dot-free form passes `isdigit()` exactly for the number lexemes. |
| Lexer.DecimalScaled | calculator.py:34-35 | `float(token)` is the number its dot-free digits denote, divided by ten once per fraction digit: `1.25` is 125 shifted two places. |
| Lexer.IntegerLexemeValue | calculator.py:35 | A number lexeme without a dot has the value of its digit string. |
| Lexer.TrailingDotValue | calculator.py:35 | A trailing dot does not change a number's value: `12.` is 12. |
| Lexer.TrailingZeroValue | calculator.py:35 | A trailing zero after the dot does not change a number's value. |
| Lexer.ToToken | calculator.py:33-39 | A lexeme becomes a number exactly when it is a number lexeme. The number's whole part is the lexeme's integer digits, and shifting it past the fraction digits gives the number the dot-free digits denote. It becomes a name exactly when it is a name lexeme, keeping its text. It becomes an operator or parenthesis exactly when it is one of `+-*/()`. |
| Lexer.Tokenize | calculator.py:23-41 | There is one token per lexeme found in the normalised text, and the token at each position is the conversion of the lexeme at that position. Every token is lexical: a non-negative number, or a lower-case name. |
| Lexer.TokenizeNormalize | calculator.py:26 | Tokenising normalised text gives the same tokens as tokenising the original text. |
| Lexer.Spell | calculator.py:29-39 | Every printable token has a normal spelling that is a lexeme and parses back to the token. |
| Lexer.FindAllRender | calculator.py:29-30 | Scanning the text of separated printable tokens finds exactly their spellings. |
| Lexer.TokenizeRender | calculator.py:23-41 | Round trip: tokenising the text of printable tokens, no two words adjacent, gives those tokens back. |
| Evaluator.ApplyTop | calculator.py:45-49 | `apply_operation` fails with underflow exactly when fewer than two operands are stacked. A `(` on top fails as an unsupported operation. Otherwise the two top operands are replaced by the operator applied to them, in order, and the operator is popped. |
| Evaluator.Reduce | calculator.py:69-75 | The inner loops leave an operator stack that blocks the given priority. That stack is a prefix of the original. One operand is consumed per operator applied. The only possible failure is underflow. |
| Evaluator.Step | calculator.py:56-76 | Only an unbound name or an underflow can fail a step, and a name fails exactly when it is unbound. A number or a bound name pushes one operand and leaves the rest of both stacks alone. An operator is pushed only on a stack that blocks its priority. A `)` removes its `(` and everything above it, leaving a prefix of the old stack. |
| Evaluator.Run | calculator.py:55-78 | The main loop fails only by underflow or by an unbound name. A run that succeeds found every name among its tokens bound. |
| Evaluator.Drain | calculator.py:80-81 | The final loop empties the operator stack and consumes one operand per entry. |
| Evaluator.EvaluateTokens | calculator.py:43-83 | No tokens evaluate to 0. |
| Evaluator.RunAppend | calculator.py:55-78 | Running over a concatenation runs over the first part and then, unless it failed, over the second. |
| Evaluator.EvaluateErrors | calculator.py:43-83 | Evaluation fails only with underflow, with an unknown name that occurs among the tokens and is unbound, or with `(` reaching the dispatcher, which needs a `(` token. |
| Evaluator.UnmatchedCloseFails | calculator.py:68-71 | A `)` with no `(` before it always fails: either the `pop()` of the missing `(` underflows, or an earlier unbound name or underflow comes first. |
| Evaluator.ReduceNoParenEmpties | calculator.py:69-70 | With no `(` on the operator stack, the inner loop of a `)` applies every pending operator and empties the stack. |
| Evaluator.ExcessCloseFails | calculator.py:66-71 | A `)` that closes more parentheses than the tokens before it opened always makes evaluation fail, whatever follows it. |
| Evaluator.DrainLeftoverParen | calculator.py:80-81 | A `(` left on the operator stack makes the final loop fail, with underflow or with `(` as an unsupported operation. |
| Evaluator.ReduceOpens | calculator.py:69-75 | The inner loops never pop a `(`. |
| Evaluator.StepOpens | calculator.py:66-76 | A `(` token pushes one `(` onto the operator stack, a `)` token that succeeds pops exactly one, and every other token leaves their number unchanged. |
| Evaluator.RunOpens | calculator.py:55-78 | After the main loop, the number of `(` on the stack has grown by the `(` tokens and shrunk by the `)` tokens. |
| Evaluator.LeftoverParenFails | calculator.py:66-81 | More `(` tokens than `)` tokens always make evaluation fail. |
| Evaluator.EvaluateFrame | calculator.py:60-65 | Evaluation reads the variable table only at the names among the tokens. |
| Reference.EvaluateWellFormed | calculator.py:43-83 | For every well-formed expression, the stack evaluation of its tokens equals the expression's denotation. The denotation respects precedence, left associativity and parentheses, and errors propagate from left to right. |
| Reference.BinReduce | calculator.py:72-75 | An operator at or above the stopping priority, on top of a blocking stack, is applied to its two operands. |
| Reference.TokenizeText | calculator.py:23-41 | The text of a printable expression tokenises to the expression's tokens. |
| Session.NewCalculator | calculator.py:5-7 | No contract of its own: the constructor only sets the two fields. It is pinned by Session.Clear, whose result is a fresh calculator, and by Session.ClearForgets. |
| Session.EvaluateExpression | calculator.py:95-98 | Evaluation fails only with underflow, with `(` reaching the dispatcher, or with an unbound name. That name is a lower-case identifier, so a name stored with a capital letter is never the one looked up. Its value on printable text is given by Session.EvaluateText. |
| Session.SetVariable | calculator.py:100-102 | The name is bound to the value exactly as given, with no lower-casing. Every other binding and the current expression are unchanged. |
| Session.Clear | calculator.py:111-114 | The result is a freshly constructed calculator. |
| Session.EvaluateText | calculator.py:95-98 | `evaluate_expression` of the text of a well-formed expression whose literals are whole numbers and whose names are lower-case identifiers is that expression's denotation under the calculator's variables. |
| Session.BasicOperationMatchesExpression | calculator.py:95-98 | For whole numbers `a` and `b`, evaluating the text `a op b` agrees with `basic_operation(a, b, op)`. |
| Session.SetThenEvaluate | calculator.py:100-102 | After `set_variable(name, v)`, evaluating the lower-case name gives `v`. |
| Session.ClearForgets | calculator.py:111-114 | After `clear`, every name evaluates to the unknown-variable error. |
| Session.CapitalisedNameUnreachable | calculator.py:26 | A name set with an ASCII capital in it never affects an evaluation, because parsing lower-cases every name. |
| Session.LastWriteWins | calculator.py:102 | Setting a name twice is the same as setting it once to the second value. |
| CalculatorExamples.PrecedenceExample | calculator.py:72-76 | `2+3*4` evaluates to 14. |
| CalculatorExamples.GroupExample | calculator.py:66-71 | `(2+3)*4` evaluates to 20. |
| CalculatorExamples.LeftAssociativeExample | calculator.py:72-75 | `10-2-3` evaluates to 5. |
| CalculatorExamples.DivisionByZeroExample | calculator.py:15 | `5/0` evaluates to positive infinity. |
| CalculatorExamples.UnboundExample | calculator.py:62-65 | `x+1` on a fresh calculator fails with unknown variable `x`. |
| CalculatorExamples.BoundExample | calculator.py:100-102 | After `x = 5`, `x*2` evaluates to 10. |
| CalculatorExamples.SpacingExample | calculator.py:26 | `  X + 1 ` evaluates like `x+1`. |
| CalculatorExamples.EmptyExample | calculator.py:83 | The empty expression evaluates to 0. |
| CalculatorExamples.LeadingOperatorExample | calculator.py:45-49 | `+1` fails with underflow. |
| CalculatorExamples.TrailingOperatorExample | calculator.py:80-81 | `1+` fails with underflow. |
| CalculatorExamples.LoneCloseExample | calculator.py:68-71 | `)` alone fails with underflow. |
| CalculatorExamples.UnclosedExample | calculator.py:80-81 | `(1` fails with underflow, because the drain pops `(` with a single operand. |
| CalculatorExamples.UnclosedGroupExample | calculator.py:80-81 | `1+(2` fails with `(` as an unsupported operation. |
| CalculatorExamples.JuxtapositionExample | calculator.py:83 | `2(3)` evaluates to 2: the operand stack keeps both numbers and the bottom one is returned. |
| CalculatorExamples.JoinedDigitsExample | calculator.py:26 | `1 2` is the single number 12, because spaces are removed before scanning. |
| CalculatorExamples.SecondDotExample | calculator.py:29-30 | `1.2.3` scans as the numbers 1.2 and 3. |
| Pattern.Match | rppr-2/models.py:53 | When the backtracking matcher succeeds, the pieces it returns fit the pattern element by element and join to the text. |
| Pattern.ConcatAppend | rppr-2/models.py:53 | Joining pieces distributes over concatenation. |
| Pattern.MatchComplete | rppr-2/models.py:53 | Backtracking never misses a split: every text in the pattern's language is matched. |
| Pattern.MatchDecides | rppr-2/models.py:53 | The matcher succeeds exactly on the pattern's language. |
| Appeal.ValidateName | rppr-2/models.py:17-26 | A blank value gives the field's empty error. Otherwise the value is accepted exactly when its stripped form is a capitalised Cyrillic word, and the stripped form is returned. The field's format error is returned exactly otherwise. |
| Appeal.ValidateLastName | rppr-2/models.py:14-26 | Accepts exactly values whose stripped form is a capitalised Cyrillic word, and returns that stripped form. A blank value is the empty-surname error. Anything else is the format error. |
| Appeal.ValidateFirstName | rppr-2/models.py:28-40 | The same, with the first-name errors. |
| Appeal.PaddedNameAccepted | rppr-2/models.py:20-26 | A name surrounded by any whitespace is accepted by both validators, as the bare name. |
| Appeal.NameValidationIdempotent | rppr-2/models.py:20-26 | Validating an accepted value again gives the same result. |
| Appeal.NameValidatorsAgree | rppr-2/models.py:14-40 | The two name validators accept the same values with the same results, and call the same values empty. |
| Appeal.NonCyrillicRejected | rppr-2/models.py:23-24 | Any character outside `[А-ЯЁа-яё]` in the stripped value is refused by both validators. This covers Latin letters, digits, hyphens and inner spaces. |
| Appeal.CapitalAfterFirstRejected | rppr-2/models.py:23-24 | A capital letter after the first position is refused. |
| Appeal.MatchPhone | rppr-2/models.py:52-53 | The phone check holds exactly for the texts in the language of the phone pattern. |
| Appeal.ValidatePhone | rppr-2/models.py:42-56 | A blank value is the empty-phone error. Otherwise the value is accepted exactly when its stripped form is in the pattern's language, and the stripped form is returned. Every refusal is one of the two phone errors. |
| Appeal.DigitsOfAppend | rppr-2/models.py:52 | The digits of a concatenation are the digits of each part, in order. |
| Appeal.AcceptedDigits | rppr-2/models.py:52 | An accepted number has ten digits, or eleven whose first is 7 or 8. The first of the last ten, the area code's lead, is 4, 8 or 9. |
| Appeal.PhoneDigitsRejected | rppr-2/models.py:45-54 | A non-blank value whose digits cannot be those of an accepted number is refused as a bad phone number. |
| AppealExamples.PaddedSurnameExample | rppr-2/models.py:20-26 | `"  Иванов "` is accepted as `Иванов`. |
| AppealExamples.LowerInitialExample | rppr-2/models.py:23-24 | `иванов` is refused. |
| AppealExamples.LatinExample | rppr-2/models.py:37-38 | `Ivan` is refused as a first name. |
| AppealExamples.CapitalsExample | rppr-2/models.py:23-24 | `ИВАНОВ` is refused. |
| AppealExamples.BlankNameExample | rppr-2/models.py:17-18 | An empty surname and a blank first name are the empty errors. |
| AppealExamples.SpelledAccepted | rppr-2/models.py:52-56 | Any text built piece by piece from the phone pattern is accepted unchanged, unless it starts with a whitespace separator, which stripping would remove. A leading hyphen without a country prefix is covered. |
| AppealExamples.FormattedExample | rppr-2/models.py:52-56 | `+7 (912) 345-67-89` is accepted. |
| AppealExamples.PlainExample | rppr-2/models.py:52-56 | `89123456789` is accepted. |
| AppealExamples.UnclosedExample | rppr-2/models.py:52-56 | `(912 345-67-89` is accepted: the two parentheses are independently optional. |
| AppealExamples.ShortRejected | rppr-2/models.py:53-54 | Fewer than ten bare digits are refused. |
| AppealExamples.AreaCodeRejected | rppr-2/models.py:53-54 | Ten bare digits not starting with 4, 8 or 9 are refused. |
| AppealExamples.ShortExample | rppr-2/models.py:53-54 | `12345` is refused. |
| AppealExamples.AreaCodeExample | rppr-2/models.py:53-54 | `3123456789` is refused. |
| AppealExamples.BlankPhoneExample | rppr-2/models.py:45-46 | A blank phone number is the empty-phone error. |
| Text.Lower | rppr-final-1-itog/app/dependencies.py:23 | Lower-cases each ASCII capital and leaves every other character alone, keeping the length. `parse_expression` lower-cases with the same function (calculator.py:26). |
| Text.Strip | rppr-2/models.py:20 | The stripped text is empty exactly when the input is all whitespace. Otherwise it starts and ends with a non-whitespace character. |
| Text.StripPadded | rppr-2/models.py:20 | Stripping a text surrounded by whitespace, which starts and ends with non-whitespace, gives that text. |
| Text.StripIdempotent | rppr-2/models.py:20 | Stripping twice is the same as stripping once. |
| Text.Fields | rppr-final-1-itog/app/dependencies.py:22 | `split()` gives non-empty words with no whitespace, and gives none exactly when the text is all whitespace. |
| Text.FieldsCons | rppr-final-1-itog/app/dependencies.py:22 | Whitespace, then a word, then whitespace or the end, splits into that word followed by the split of the rest. |
| Auth.ParseAuthorization | rppr-final-1-itog/app/dependencies.py:14-32 | A missing or empty header asks for authorisation, exactly. A non-empty header that does not split into two words is malformed, exactly. A success means the header splits into two words, the first lower-cases to `bearer`, and the token is the second word, which is non-empty and contains no whitespace. Parsing never produces the invalid-token error. |
| Auth.CurrentUser | rppr-final-1-itog/app/dependencies.py:9-43 | Succeeds exactly when the header parses and the store knows the token, and returns the store's user. An unknown token is the invalid-token error, exactly. A header error is passed through unchanged. |
| Auth.BlankHeaderMalformed | rppr-final-1-itog/app/dependencies.py:20-32 | A header of only whitespace is present, so not "missing", but malformed. |
| Auth.BearerHeaderParses | rppr-final-1-itog/app/dependencies.py:22-27 | The scheme in any case, with any whitespace around and between the two words, yields the token. |
| Auth.ExtraWordMalformed | rppr-final-1-itog/app/dependencies.py:22-32 | A third word, such as a token containing a space, makes the header malformed whatever the scheme. |
| Auth.OtherSchemeRefused | rppr-final-1-itog/app/dependencies.py:23-27 | A scheme other than `bearer` is refused as the wrong scheme before the store is consulted. |
| Auth.LookupLocality | rppr-final-1-itog/app/dependencies.py:34-35 | The answer depends on the store only at the parsed token. |
| AuthExamples.CapitalisedExample | rppr-final-1-itog/app/dependencies.py:22-23 | `Bearer abc123` yields the token `abc123`. |
| AuthExamples.ShoutedExample | rppr-final-1-itog/app/dependencies.py:23 | `BEARER abc123` yields the token `abc123`. |
| AuthExamples.OtherSchemeExample | rppr-final-1-itog/app/dependencies.py:23-27 | `Basic abc123` is the wrong scheme. |
| AuthExamples.SchemeOnlyExample | rppr-final-1-itog/app/dependencies.py:28-32 | `Bearer` alone is malformed. |
| AuthExamples.SpacedTokenExample | rppr-final-1-itog/app/dependencies.py:28-32 | `Bearer abc 123` is malformed. |
| AuthExamples.MissingExample | rppr-final-1-itog/app/dependencies.py:14-18 | No header, or an empty one, asks for authorisation. |
| AuthExamples.UnknownTokenExample | rppr-final-1-itog/app/dependencies.py:37-41 | A well-formed header with an unknown token is the invalid-token error. |
| AuthExamples.KnownTokenExample | rppr-final-1-itog/app/dependencies.py:34-43 | A well-formed header with a known token returns that user. |

## Left out

- Floating point: finite values are exact reals. There is no rounding, overflow to infinity, signed zero or `float()` rounding of long decimals. The non-finite values follow IEEE-754 once a non-finite value is present, whether it came from a division by zero or from a variable bound to one.
- Session.EvaluateText: proved only for expressions whose literals are whole numbers, because the printer `Lexer.Spell` writes whole numbers only. Decimal literals such as `1.5` are covered by Lexer.ToToken and the evaluator lemmas, but not by this end-to-end lemma.
- Session.BasicOperationMatchesExpression: stated for whole-number operands only, for the same reason.
- Arithmetic.BasicOperation: the divisor test `y != 0` is modelled as a comparison with the exact zero. Because there is no signed zero, `-0.0` is not distinguished.
- Lexer.Normalize: `lower()` is modelled for ASCII letters only. A non-ASCII character whose lower case is ASCII, such as the Kelvin sign U+212A lowering to `k`, would become a name character in the source but is dropped by the model.
- Lexer.FindAll: `\d` is modelled as the ASCII digits. Python also matches other Unicode decimal digits there, and `float()` accepts them.
- `get_state` is not modelled: it only reports the two fields, which the `Calculator` datatype exposes directly.
- `current_expression` is never set by the modelled code except by `clear`. It is carried in the datatype but nothing reads it.
- `evaluate_tokens` on arbitrary lists of Python values is not modelled. Only token lists produced by `parse_expression` are modelled, and those are numbers, names and the six operator strings.
- Arithmetic.Priority: `get_priority`'s default 0 for unknown strings is not modelled. The evaluator only asks about the four operators.
- The exception messages, HTTP status codes and the `HTTPException` machinery are left out. Each failure is a constructor of an error datatype.
- The session store lookup `AuthService.get_user_by_session_token` and the database session are not modelled. The lookup is a parameter of `Auth.CurrentUser`, a function from token to optional user, and a falsy user is modelled as `None`. `rppr-final-1-itog/app/auth.py` is not part of this model.
- Text.Lower: Python's `str.lower()` is modelled for ASCII letters. For the comparison with `bearer` this is exact, since no non-ASCII character lower-cases to `b`, `e`, `a` or `r`.
- Pydantic's type coercion and the other `AppealCreate` fields (`birth_date`, `email`) are left out. The validators receive a string.
- The regular expressions are not interpreted generally. The two name and phone patterns are written out, the phone one as a sequence of pattern elements. The trailing `$` is not modelled because the value is already stripped, so no trailing newline can remain.
