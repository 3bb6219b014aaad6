/** The field validators of an appeal form: surname and first name must be a
    capitalised word of Russian Cyrillic letters, and the phone number must
    fit a Russian mobile-number pattern. Each validator strips the value
    first, and the stripped value is the one kept. */
module Appeal {
  import opened Wrappers
  import opened Text
  import opened Pattern

  /** The reason a field was refused (each raises `ValueError` with its own
      message in the source). */
  datatype AppealError =
    | EmptyLastName | BadLastName
    | EmptyFirstName | BadFirstName
    | EmptyPhone | BadPhone

  // ---------------------------------------------------------------------
  // Names: `^[А-ЯЁ][а-яё]*$` on the stripped value.
  // ---------------------------------------------------------------------

  /** `[А-ЯЁ]`: U+0410 to U+042F, and Ё (U+0401), which lies outside that range. */
  predicate IsCyrillicUpper(c: char) {
    ('А' <= c <= 'Я') || c == 'Ё'
  }

  /** `[а-яё]`: U+0430 to U+044F, and ё (U+0451). */
  predicate IsCyrillicLower(c: char) {
    ('а' <= c <= 'я') || c == 'ё'
  }

  /** The language of `[А-ЯЁ][а-яё]*`. */
  predicate IsName(s: string) {
    |s| > 0 && IsCyrillicUpper(s[0]) && forall i :: 1 <= i < |s| ==> IsCyrillicLower(s[i])
  }

  /** The check both name validators share, with their own error kinds. */
  function ValidateName(v: string, empty: AppealError, bad: AppealError): (r: Result<string, AppealError>)
    requires empty != bad
    ensures AllSpace(v) <==> r == Err(empty)
    ensures r.Ok? <==> !AllSpace(v) && IsName(Strip(v))
    ensures r.Ok? ==> r.value == Strip(v)
    ensures r.Err? ==> (r.error == bad <==> !AllSpace(v) && !IsName(Strip(v)))
  {
    var t := Strip(v);
    if t == [] then Err(empty)
    else if IsName(t) then Ok(t)
    else Err(bad)
  }

  /** `validate_last_name`. */
  function ValidateLastName(v: string): (r: Result<string, AppealError>)
    ensures r.Ok? <==> IsName(Strip(v))
    ensures r.Ok? ==> r.value == Strip(v)
    ensures r == Err(EmptyLastName) <==> AllSpace(v)
    ensures r == Err(BadLastName) <==> !AllSpace(v) && !IsName(Strip(v))
  {
    ValidateName(v, EmptyLastName, BadLastName)
  }

  /** `validate_first_name`. */
  function ValidateFirstName(v: string): (r: Result<string, AppealError>)
    ensures r.Ok? <==> IsName(Strip(v))
    ensures r.Ok? ==> r.value == Strip(v)
    ensures r == Err(EmptyFirstName) <==> AllSpace(v)
    ensures r == Err(BadFirstName) <==> !AllSpace(v) && !IsName(Strip(v))
  {
    ValidateName(v, EmptyFirstName, BadFirstName)
  }

  /** A name surrounded by any whitespace is accepted, as the bare name. */
  lemma PaddedNameAccepted(lead: string, name: string, trail: string)
    requires AllSpace(lead) && AllSpace(trail) && IsName(name)
    ensures ValidateLastName(lead + name + trail) == Ok(name)
    ensures ValidateFirstName(lead + name + trail) == Ok(name)
  {
    assert !IsSpace(name[0]) && !IsSpace(name[|name| - 1]);
    StripPadded(lead, name, trail);
  }

  /** Validating an accepted value again gives the same value. */
  lemma NameValidationIdempotent(v: string)
    ensures ValidateLastName(v).Ok? ==> ValidateLastName(ValidateLastName(v).value) == ValidateLastName(v)
    ensures ValidateFirstName(v).Ok? ==> ValidateFirstName(ValidateFirstName(v).value) == ValidateFirstName(v)
  {
    StripIdempotent(v);
  }

  /** The two name fields accept exactly the same values; only the messages
      of their errors differ. */
  lemma NameValidatorsAgree(v: string)
    ensures ValidateLastName(v).Ok? <==> ValidateFirstName(v).Ok?
    ensures ValidateLastName(v).Ok? ==> ValidateLastName(v) == ValidateFirstName(v)
    ensures ValidateLastName(v) == Err(EmptyLastName) <==> ValidateFirstName(v) == Err(EmptyFirstName)
  {
  }

  /** Latin letters, digits, hyphens and inner spaces are all refused: a
      double-barrelled surname such as "Римская-Корсакова" cannot be entered. */
  lemma NonCyrillicRejected(v: string, k: nat)
    requires k < |Strip(v)|
    requires !IsCyrillicUpper(Strip(v)[k]) && !IsCyrillicLower(Strip(v)[k])
    ensures ValidateLastName(v) == Err(BadLastName)
    ensures ValidateFirstName(v) == Err(BadFirstName)
  {
  }

  /** An all-capitals word is refused: only the first letter may be a capital. */
  lemma CapitalAfterFirstRejected(v: string, k: nat)
    requires 1 <= k < |Strip(v)|
    requires IsCyrillicUpper(Strip(v)[k])
    ensures ValidateLastName(v) == Err(BadLastName)
  {
    assert !IsCyrillicLower(Strip(v)[k]);
  }

  // ---------------------------------------------------------------------
  // Phone numbers:
  // `^(\+7|7|8)?[\s\-]?\(?[489][0-9]{2}\)?[\s\-]?[0-9]{3}[\s\-]?[0-9]{2}[\s\-]?[0-9]{2}$`
  // on the stripped value.
  // ---------------------------------------------------------------------

  /** `[0-9]`: ASCII digits only. */
  predicate IsAsciiDigit(c: char) {
    '0' <= c <= '9'
  }

  /** `[489]`: the first digit of the area code. */
  predicate IsAreaLead(c: char) {
    c == '4' || c == '8' || c == '9'
  }

  /** `[\s\-]`: one whitespace character or a hyphen. */
  predicate IsSeparator(c: char) {
    IsSpace(c) || c == '-'
  }

  predicate IsOpenParen(c: char) {
    c == '('
  }

  predicate IsCloseParen(c: char) {
    c == ')'
  }

  const Digit: Element := Class(IsAsciiDigit, false)
  const Separator: Element := Class(IsSeparator, true)
  const OpenParen: Element := Class(IsOpenParen, true)
  const CloseParen: Element := Class(IsCloseParen, true)
  const AreaLead: Element := Class(IsAreaLead, false)

  /** `(\+7|7|8)?`: the alternation, tried in order, then the empty match. */
  const CountryPrefix: Element := Choice(["+7", "7", "8", ""])

  /** `[0-9]{n}`. */
  function Digits(n: nat): (pat: seq<Element>)
    ensures |pat| == n && forall i :: 0 <= i < n ==> pat[i] == Digit
  {
    seq(n, _ => Digit)
  }

  /** Everything after the country prefix. */
  const PhoneBody: seq<Element> :=
    [Separator, OpenParen, AreaLead] + Digits(2) + [CloseParen, Separator] + Digits(3)
    + [Separator] + Digits(2) + [Separator] + Digits(2)

  const PhonePattern: seq<Element> := [CountryPrefix] + PhoneBody

  /** Whether a stripped value matches the phone pattern. */
  function MatchPhone(s: string): (r: bool)
    ensures r <==> InLanguage(PhonePattern, s)
  {
    MatchDecides(PhonePattern, s);
    Match(PhonePattern, s).Some?
  }

  /** `validate_phone_number`. */
  function ValidatePhone(v: string): (r: Result<string, AppealError>)
    ensures AllSpace(v) <==> r == Err(EmptyPhone)
    ensures r.Ok? <==> InLanguage(PhonePattern, Strip(v))
    ensures r.Ok? ==> r.value == Strip(v)
    ensures r.Err? ==> r.error == EmptyPhone || r.error == BadPhone
  {
    var t := Strip(v);
    if t == [] then
      assert !InLanguage(PhonePattern, t) by {
        if InLanguage(PhonePattern, t) {
          AcceptedDigits(t);
        }
      }
      Err(EmptyPhone)
    else if MatchPhone(t) then Ok(t)
    else Err(BadPhone)
  }

  // ---------------------------------------------------------------------
  // What an accepted number contains: ten digits, the first of them the
  // area code's 4, 8 or 9, after a country prefix that adds a 7 or an 8.
  // ---------------------------------------------------------------------

  predicate AllDigits(s: string) {
    forall i :: 0 <= i < |s| ==> IsAsciiDigit(s[i])
  }

  /** The digits of a text, in order. */
  function DigitsOf(s: string): (d: string)
    ensures |d| <= |s| && AllDigits(d)
  {
    if s == [] then []
    else (if IsAsciiDigit(s[0]) then [s[0]] else []) + DigitsOf(s[1..])
  }

  lemma {:induction false} DigitsOfAppend(a: string, b: string)
    ensures DigitsOf(a + b) == DigitsOf(a) + DigitsOf(b)
    decreases |a|
  {
    if a == [] {
      assert a + b == b;
    } else {
      var head := if IsAsciiDigit(a[0]) then [a[0]] else [];
      assert (a + b)[0] == a[0];
      assert (a + b)[1..] == a[1..] + b;
      assert DigitsOf(a + b) == head + DigitsOf(a[1..] + b);
      DigitsOfAppend(a[1..], b);
      assert DigitsOf(a) == head + DigitsOf(a[1..]);
    }
  }

  function DigitCount(pieces: seq<string>): nat {
    if pieces == [] then 0 else |DigitsOf(pieces[0])| + DigitCount(pieces[1..])
  }

  lemma {:induction false} DigitsOfConcat(pieces: seq<string>)
    ensures |DigitsOf(Concat(pieces))| == DigitCount(pieces)
    decreases |pieces|
  {
    if pieces != [] {
      DigitsOfAppend(pieces[0], Concat(pieces[1..]));
      DigitsOfConcat(pieces[1..]);
    }
  }

  /** A class whose every piece holds a known number of digits: a required
      class accepts only digits, an optional one accepts none. */
  predicate DigitExact(e: Element) {
    match e
    case Class(p, optional) => forall c :: p(c) ==> (IsAsciiDigit(c) <==> !optional)
    case Choice(_) => false
  }

  predicate AllExact(pat: seq<Element>) {
    forall i :: 0 <= i < |pat| ==> DigitExact(pat[i])
  }

  /** The digits every text of a digit-exact pattern holds: one per required
      class. */
  function Weight(pat: seq<Element>): nat {
    if pat == [] then 0
    else (if pat[0].Class? && !pat[0].optional then 1 else 0) + Weight(pat[1..])
  }

  lemma {:induction false} ExactCount(pat: seq<Element>, pieces: seq<string>)
    requires FitsAll(pat, pieces) && AllExact(pat)
    ensures DigitCount(pieces) == Weight(pat)
    decreases |pat|
  {
    if pat != [] {
      var piece := pieces[0];
      assert Fits(pat[0], piece) && DigitExact(pat[0]);
      if piece != [] {
        assert piece[1..] == [];
        assert pat[0].p(piece[0]);
      }
      assert FitsAll(pat[1..], pieces[1..]) by {
        forall i | 0 <= i < |pat[1..]| ensures Fits(pat[1..][i], pieces[1..][i]) {
          assert Fits(pat[i + 1], pieces[i + 1]);
        }
      }
      ExactCount(pat[1..], pieces[1..]);
    }
  }

  lemma {:induction false} WeightAppend(a: seq<Element>, b: seq<Element>)
    ensures Weight(a + b) == Weight(a) + Weight(b)
    decreases |a|
  {
    if a == [] {
      assert a + b == b;
    } else {
      assert (a + b)[1..] == a[1..] + b;
      WeightAppend(a[1..], b);
    }
  }

  lemma {:induction false} WeightDigits(n: nat)
    ensures Weight(Digits(n)) == n
    decreases n
  {
    if n > 0 {
      assert Digits(n)[1..] == Digits(n - 1);
      WeightDigits(n - 1);
    }
  }

  lemma WeightOne(e: Element)
    ensures Weight([e]) == if e.Class? && !e.optional then 1 else 0
  {
    assert [e][1..] == [];
  }

  lemma AllExactAppend(a: seq<Element>, b: seq<Element>)
    requires AllExact(a) && AllExact(b)
    ensures AllExact(a + b)
  {
    forall i | 0 <= i < |a + b| ensures DigitExact((a + b)[i]) {
      if i < |a| { assert (a + b)[i] == a[i]; } else { assert (a + b)[i] == b[i - |a|]; }
    }
  }

  lemma ElementsExact()
    ensures DigitExact(Digit) && DigitExact(Separator) && DigitExact(AreaLead)
    ensures DigitExact(OpenParen) && DigitExact(CloseParen)
    ensures forall n: nat :: AllExact(Digits(n))
  {
  }

  /** The body after the closing parenthesis and its separator: seven
      digits. */
  lemma TailWeight()
    ensures var tail := Digits(3) + [Separator] + Digits(2) + [Separator] + Digits(2);
      AllExact(tail) && Weight(tail) == 7
  {
    ElementsExact();
    WeightDigits(2); WeightDigits(3);
    WeightOne(Separator);
    WeightAppend(Digits(3), [Separator]);
    WeightAppend(Digits(3) + [Separator], Digits(2));
    WeightAppend(Digits(3) + [Separator] + Digits(2), [Separator]);
    WeightAppend(Digits(3) + [Separator] + Digits(2) + [Separator], Digits(2));
    AllExactAppend(Digits(3), [Separator]);
    AllExactAppend(Digits(3) + [Separator], Digits(2));
    AllExactAppend(Digits(3) + [Separator] + Digits(2), [Separator]);
    AllExactAppend(Digits(3) + [Separator] + Digits(2) + [Separator], Digits(2));
  }

  /** The body: ten digits, none in its first two elements. */
  lemma BodyWeight()
    ensures AllExact(PhoneBody) && Weight(PhoneBody) == 10
    ensures AllExact(PhoneBody[..2]) && Weight(PhoneBody[..2]) == 0
    ensures AllExact(PhoneBody[3..]) && Weight(PhoneBody[3..]) == 9
    ensures PhoneBody[2] == AreaLead
  {
    ElementsExact();
    var head := [Separator, OpenParen, AreaLead];
    var mid := [CloseParen, Separator];
    var tail := Digits(3) + [Separator] + Digits(2) + [Separator] + Digits(2);
    TailWeight();
    assert PhoneBody == head + (Digits(2) + (mid + tail));
    assert PhoneBody[..2] == [Separator, OpenParen];
    assert PhoneBody[3..] == Digits(2) + (mid + tail);
    WeightDigits(2);
    WeightOne(Separator); WeightOne(OpenParen); WeightOne(AreaLead); WeightOne(CloseParen);
    assert head == [Separator] + ([OpenParen] + [AreaLead]);
    WeightAppend([OpenParen], [AreaLead]);
    WeightAppend([Separator], [OpenParen] + [AreaLead]);
    assert [Separator, OpenParen] == [Separator] + [OpenParen];
    WeightAppend([Separator], [OpenParen]);
    assert mid == [CloseParen] + [Separator];
    WeightAppend([CloseParen], [Separator]);
    WeightAppend(mid, tail);
    WeightAppend(Digits(2), mid + tail);
    WeightAppend(head, Digits(2) + (mid + tail));
    AllExactAppend(mid, tail);
    AllExactAppend(Digits(2), mid + tail);
    AllExactAppend(head, Digits(2) + (mid + tail));
  }

  /** The country prefix holds at most one digit, a 7 or an 8. */
  lemma PrefixCases(piece: string)
    requires Fits(CountryPrefix, piece)
    ensures piece == "+7" || piece == "7" || piece == "8" || piece == ""
  {
    assert piece in ["+7", "7", "8", ""];
  }

  lemma PrefixDigits(piece: string)
    requires Fits(CountryPrefix, piece)
    ensures piece == [] ==> DigitsOf(piece) == []
    ensures piece != [] ==> DigitsOf(piece) == [piece[|piece| - 1]]
    ensures piece != [] ==> piece[|piece| - 1] == '7' || piece[|piece| - 1] == '8'
  {
    PrefixCases(piece);
    if piece == "+7" {
      PrefixSevenDigits();
    } else if piece != [] {
      SingleDigit(piece);
    }
  }

  lemma SingleDigit(s: string)
    requires |s| == 1 && IsAsciiDigit(s[0])
    ensures DigitsOf(s) == s
  {
    assert s[1..] == [];
  }

  lemma PrefixSevenDigits()
    ensures DigitsOf("+7") == "7"
  {
    assert "+7"[1..] == "7";
    SingleDigit("7");
  }

  /** The digits of a body: ten, the first of them the area code's lead. */
  lemma BodyDigits(body: seq<string>)
    requires FitsAll(PhoneBody, body)
    ensures var d := DigitsOf(Concat(body)); |d| == 10 && IsAreaLead(d[0])
  {
    BodyWeight();
    FitsSlice(PhoneBody, body, 0, 2);
    FitsSlice(PhoneBody, body, 3, |body|);
    assert PhoneBody[0..2] == PhoneBody[..2];
    assert body[0..2] == body[..2];
    assert PhoneBody[3..|body|] == PhoneBody[3..];
    assert body[3..|body|] == body[3..];
    ExactCount(PhoneBody[..2], body[..2]);
    ExactCount(PhoneBody[3..], body[3..]);
    DigitsOfConcat(body[..2]);
    DigitsOfConcat(body[3..]);
    var lead := body[2];
    assert Fits(AreaLead, lead);
    assert lead == [lead[0]] && IsAreaLead(lead[0]);
    assert DigitsOf(lead) == lead by {
      assert lead[1..] == [];
    }
    var rest := Concat(body[3..]);
    BodySplit(body);
    DigitsOfAppend(lead, rest);
    DigitsOfAppend(Concat(body[..2]), lead + rest);
  }

  lemma BodySplit(body: seq<string>)
    requires |body| > 3
    ensures Concat(body) == Concat(body[..2]) + (body[2] + Concat(body[3..]))
  {
    assert body == body[..2] + ([body[2]] + body[3..]);
    ConcatAppend(body[..2], [body[2]] + body[3..]);
    ConcatCons(body[2], body[3..]);
  }

  /** A split of the whole pattern is a country prefix and a split of the
      body. */
  lemma PatternSplit(pieces: seq<string>)
    requires FitsAll(PhonePattern, pieces)
    ensures Fits(CountryPrefix, pieces[0]) && FitsAll(PhoneBody, pieces[1..])
    ensures Concat(pieces) == pieces[0] + Concat(pieces[1..])
  {
    FitsSlice(PhonePattern, pieces, 1, |pieces|);
    assert PhonePattern[1..|pieces|] == PhoneBody;
    assert pieces[1..|pieces|] == pieces[1..];
    assert pieces == [pieces[0]] + pieces[1..];
    ConcatCons(pieces[0], pieces[1..]);
    assert Fits(PhonePattern[0], pieces[0]);
  }

  lemma PrefixBodyDigits(prefix: string, rest: string)
    requires Fits(CountryPrefix, prefix)
    requires |DigitsOf(rest)| == 10 && IsAreaLead(DigitsOf(rest)[0])
    ensures var d := DigitsOf(prefix + rest);
      && (|d| == 10 || (|d| == 11 && (d[0] == '7' || d[0] == '8')))
      && IsAreaLead(d[|d| - 10])
  {
    DigitsOfAppend(prefix, rest);
    PrefixDigits(prefix);
  }

  /** An accepted number has ten digits, or eleven when the country prefix
      is there, in which case the first is a 7 or an 8; the first of the
      last ten is a 4, an 8 or a 9. */
  lemma AcceptedDigits(s: string)
    requires InLanguage(PhonePattern, s)
    ensures var d := DigitsOf(s);
      && (|d| == 10 || (|d| == 11 && (d[0] == '7' || d[0] == '8')))
      && IsAreaLead(d[|d| - 10])
  {
    var pieces :| FitsAll(PhonePattern, pieces) && Concat(pieces) == s;
    PatternSplit(pieces);
    BodyDigits(pieces[1..]);
    PrefixBodyDigits(pieces[0], Concat(pieces[1..]));
  }

  /** A value whose digits cannot be those of an accepted number is refused
      as a bad phone number, whatever else it contains. */
  lemma PhoneDigitsRejected(v: string)
    requires !AllSpace(v)
    requires var d := DigitsOf(Strip(v));
      || !(|d| == 10 || (|d| == 11 && (d[0] == '7' || d[0] == '8')))
      || !IsAreaLead(d[|d| - 10])
    ensures ValidatePhone(v) == Err(BadPhone)
  {
    if InLanguage(PhonePattern, Strip(v)) {
      AcceptedDigits(Strip(v));
    }
  }
}
