/** The request dependency that resolves the signed-in user from the
    `Authorization` header: `Bearer <session token>`, the scheme compared
    without regard to case, the token looked up in the session store. */
module Auth {
  import opened Wrappers
  import opened Text

  /** The four refusals; the source answers each with status 401 and its own
      message. */
  datatype AuthError =
    | AuthorizationRequired
    | BadHeaderFormat
    | BadScheme
    | InvalidToken

  const BearerScheme: string := "bearer"

  /** The header split on whitespace into exactly a scheme and a token. */
  predicate WellFormedHeader(header: string) {
    |Fields(header)| == 2
  }

  /** Reading the header: a missing or empty header asks for authorisation;
      anything but two whitespace-separated words is malformed; a first word
      other than `bearer` in any case is the wrong scheme; otherwise the
      second word is the session token. */
  function ParseAuthorization(header: Option<string>): (r: Result<string, AuthError>)
    ensures r == Err(AuthorizationRequired) <==> header == None || header == Some([])
    ensures r == Err(BadHeaderFormat) <==> header.Some? && header.value != [] && !WellFormedHeader(header.value)
    ensures r.Ok? ==>
      && header.Some? && WellFormedHeader(header.value)
      && Lower(Fields(header.value)[0]) == BearerScheme && r.value == Fields(header.value)[1]
    ensures r.Ok? ==> r.value != [] && NoSpace(r.value)
    ensures r.Err? ==> r.error != InvalidToken
  {
    match header
    case None => Err(AuthorizationRequired)
    case Some(h) =>
      if h == [] then Err(AuthorizationRequired)
      else
        var fields := Fields(h);
        if |fields| != 2 then Err(BadHeaderFormat)
        else if Lower(fields[0]) != BearerScheme then Err(BadScheme)
        else Ok(fields[1])
  }

  /** `get_current_user`, with the session store's token lookup given as a
      function from token to user. */
  function CurrentUser<U>(header: Option<string>, lookup: string -> Option<U>): (r: Result<U, AuthError>)
    ensures r.Ok? <==> ParseAuthorization(header).Ok? && lookup(ParseAuthorization(header).value).Some?
    ensures r.Ok? ==> r.value == lookup(ParseAuthorization(header).value).value
    ensures r == Err(InvalidToken) <==> ParseAuthorization(header).Ok? && lookup(ParseAuthorization(header).value).None?
    ensures ParseAuthorization(header).Err? ==> r == Err(ParseAuthorization(header).error)
  {
    var token :- ParseAuthorization(header);
    match lookup(token)
    case Some(user) => Ok(user)
    case None => Err(InvalidToken)
  }

  /** A header of only whitespace is not missing but malformed. */
  lemma BlankHeaderMalformed(h: string)
    requires h != [] && AllSpace(h)
    ensures ParseAuthorization(Some(h)) == Err(BadHeaderFormat)
  {
  }

  /** One word with whitespace around it splits into that word. */
  lemma OneField(lead: string, w: string, trail: string)
    requires AllSpace(lead) && AllSpace(trail)
    requires w != [] && NoSpace(w)
    ensures Fields(lead + w + trail) == [w]
  {
    FieldsCons(lead, w, trail);
    FieldsAllSpace(trail);
  }

  /** Two words with whitespace around and between them split into those
      two words. */
  lemma TwoFields(lead: string, a: string, gap: string, b: string, trail: string)
    requires AllSpace(lead) && AllSpace(gap) && AllSpace(trail) && gap != []
    requires a != [] && NoSpace(a) && b != [] && NoSpace(b)
    ensures Fields(lead + a + (gap + b + trail)) == [a, b]
  {
    var tail := gap + b + trail;
    OneField(gap, b, trail);
    assert tail[0] == gap[0];
    FieldsCons(lead, a, tail);
  }

  /** The header a client sends for a token — the scheme in any case, any
      whitespace around and between the two words — yields that token. */
  lemma BearerHeaderParses(lead: string, scheme: string, gap: string, token: string, trail: string)
    requires AllSpace(lead) && AllSpace(trail) && AllSpace(gap) && gap != []
    requires scheme != [] && NoSpace(scheme) && Lower(scheme) == BearerScheme
    requires token != [] && NoSpace(token)
    ensures ParseAuthorization(Some(lead + scheme + (gap + token + trail))) == Ok(token)
  {
    TwoFields(lead, scheme, gap, token, trail);
  }

  lemma FieldsFirstWord(f: string, rest: string)
    requires f != [] && NoSpace(f)
    requires rest == [] || IsSpace(rest[0])
    ensures Fields(f + rest) == [f] + Fields(rest)
  {
    var none: string := [];
    assert none + f == f;
    FieldsCons(none, f, rest);
  }

  lemma FieldsLastWord(w: string, f: string)
    requires AllSpace(w)
    requires f != [] && NoSpace(f)
    ensures Fields(w + f) == [f]
  {
    FieldsCons(w, f, []);
    assert w + f + [] == w + f;
    FieldsAllSpace([]);
  }

  /** A third word, such as a token with a space inside, makes the header
      malformed whatever the scheme. */
  lemma ExtraWordMalformed(scheme: string, token: string, extra: string)
    requires scheme != [] && NoSpace(scheme)
    requires token != [] && NoSpace(token)
    requires extra != [] && NoSpace(extra)
    ensures ParseAuthorization(Some(scheme + (" " + token + (" " + extra)))) == Err(BadHeaderFormat)
  {
    assert AllSpace(" ") by { assert IsSpace(' '); }
    FieldsLastWord(" ", extra);
    FieldsCons(" ", token, " " + extra);
    FieldsFirstWord(scheme, " " + token + (" " + extra));
  }

  /** The two words of `scheme token`. */
  lemma SchemeTokenFields(scheme: string, token: string)
    requires scheme != [] && NoSpace(scheme)
    requires token != [] && NoSpace(token)
    ensures Fields(scheme + (" " + token)) == [scheme, token]
  {
    assert AllSpace(" ") by { assert IsSpace(' '); }
    FieldsLastWord(" ", token);
    FieldsFirstWord(scheme, " " + token);
  }

  /** A scheme other than bearer is refused before the store is consulted. */
  lemma OtherSchemeRefused<U>(scheme: string, token: string, lookup: string -> Option<U>)
    requires scheme != [] && NoSpace(scheme) && Lower(scheme) != BearerScheme
    requires token != [] && NoSpace(token)
    ensures CurrentUser(Some(scheme + (" " + token)), lookup) == Err(BadScheme)
  {
    SchemeTokenFields(scheme, token);
    assert ParseAuthorization(Some(scheme + (" " + token))) == Err(BadScheme);
  }

  /** The result depends on the store only through the parsed token: two
      stores that agree on it give the same answer. */
  lemma LookupLocality<U>(header: Option<string>, l1: string -> Option<U>, l2: string -> Option<U>)
    requires ParseAuthorization(header).Ok? ==> l1(ParseAuthorization(header).value) == l2(ParseAuthorization(header).value)
    ensures CurrentUser(header, l1) == CurrentUser(header, l2)
  {
  }
}
