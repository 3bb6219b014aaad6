/** Worked examples of reading the `Authorization` header. */
module AuthExamples {
  import opened Wrappers
  import opened Text
  import opened Auth

  lemma SpaceIsBlank()
    ensures AllSpace(" ")
  {
    assert IsSpace(' ');
  }

  lemma CapitalisedLowers()
    ensures Lower("Bearer") == BearerScheme
  {
  }

  lemma ShoutedLowers()
    ensures Lower("BEARER") == BearerScheme
  {
  }

  /** The usual header: the scheme, one space, the token. */
  lemma SingleSpaceParses(scheme: string, token: string)
    requires scheme != [] && NoSpace(scheme) && Lower(scheme) == BearerScheme
    requires token != [] && NoSpace(token)
    ensures ParseAuthorization(Some(scheme + (" " + token))) == Ok(token)
  {
    SpaceIsBlank();
    var none: string := [];
    BearerHeaderParses(none, scheme, " ", token, none);
    assert none + scheme == scheme && " " + token + none == " " + token;
  }

  lemma CapitalisedExample()
    ensures ParseAuthorization(Some("Bearer abc123")) == Ok("abc123")
  {
    CapitalisedLowers();
    assert NoSpace("Bearer") && NoSpace("abc123");
    SingleSpaceParses("Bearer", "abc123");
    assert "Bearer" + (" " + "abc123") == "Bearer abc123";
  }

  lemma ShoutedExample()
    ensures ParseAuthorization(Some("BEARER abc123")) == Ok("abc123")
  {
    ShoutedLowers();
    assert NoSpace("BEARER") && NoSpace("abc123");
    SingleSpaceParses("BEARER", "abc123");
    assert "BEARER" + (" " + "abc123") == "BEARER abc123";
  }

  lemma OtherSchemeExample<U>(lookup: string -> Option<U>)
    ensures CurrentUser(Some("Basic abc123"), lookup) == Err(BadScheme)
  {
    assert NoSpace("Basic") && NoSpace("abc123");
    assert Lower("Basic") != BearerScheme;
    OtherSchemeRefused("Basic", "abc123", lookup);
    assert "Basic" + (" " + "abc123") == "Basic abc123";
  }

  lemma SchemeOnlyExample()
    ensures ParseAuthorization(Some("Bearer")) == Err(BadHeaderFormat)
  {
    assert NoSpace("Bearer");
    OneField([], "Bearer", []);
    assert [] + "Bearer" + [] == "Bearer";
  }

  lemma SpacedTokenExample()
    ensures ParseAuthorization(Some("Bearer abc 123")) == Err(BadHeaderFormat)
  {
    assert NoSpace("Bearer") && NoSpace("abc") && NoSpace("123");
    ExtraWordMalformed("Bearer", "abc", "123");
    assert "Bearer" + (" " + "abc" + (" " + "123")) == "Bearer abc 123";
  }

  lemma MissingExample<U>(lookup: string -> Option<U>)
    ensures CurrentUser(None, lookup) == Err(AuthorizationRequired)
    ensures CurrentUser(Some(""), lookup) == Err(AuthorizationRequired)
  {
  }

  /** A well-formed header whose token the store does not know. */
  lemma UnknownTokenExample<U>(lookup: string -> Option<U>)
    requires lookup("abc123").None?
    ensures CurrentUser(Some("Bearer abc123"), lookup) == Err(InvalidToken)
  {
    CapitalisedExample();
  }

  lemma KnownTokenExample<U>(lookup: string -> Option<U>, user: U)
    requires lookup("abc123") == Some(user)
    ensures CurrentUser(Some("Bearer abc123"), lookup) == Ok(user)
  {
    CapitalisedExample();
  }
}
