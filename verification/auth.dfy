/**
 * Bearer-token authentication: reading the caller's token out of the `Authorization` header
 * (`get_user_token`) and resolving it to a user id through the identity provider
 * (`get_user_id`). The provider is an oracle from token to reply.
 */
module Auth {
  import opened Wrappers
  import opened Text

  /** The scheme prefix, compared after lower-casing the header. */
  const SCHEME := "bearer "

  /** Why a request is refused; every refusal is a 401. */
  datatype AuthError = MissingHeader | MalformedHeader | EmptyToken | InvalidToken
  {
    /** The HTTP status of the refusal. */
    function Status(): int {
      401
    }

    /** The `detail` text of the refusal. */
    function Detail(): string {
      match this
      case MissingHeader => "Missing authorization header"
      case MalformedHeader => "Invalid authorization header format. Expected: Bearer <token>"
      case EmptyToken => "Empty token"
      case InvalidToken => "Invalid token"
    }
  }

  /** The outcome of `get_user_id` together with the tokens it sent to the provider, in order. */
  datatype Lookup = Lookup(result: Result<string, AuthError>, sent: seq<string>)

  /** What the identity provider answers for a token: a user (`Some(id)`) or none, or it raises. */
  datatype ProviderReply = UserReply(user: Option<string>) | ProviderFailed(message: string)

  /** A header that lower-cases to a `bearer ` prefix has its first space right after the scheme. */
  lemma {:induction false} SchemeEndsAtFirstSpace(h: string)
    requires StartsWith(Lower(h), SCHEME)
    ensures IndexOf(h, ' ') == Some(|SCHEME| - 1)
  {
    assert Lower(h)[6] == ' ';
    assert h[6] == ' ';
    forall i | 0 <= i < 6 ensures h[i] != ' ' {
      assert Lower(h)[i] == SCHEME[i] != ' ';
    }
    IndexOfFirst(h, ' ', 6);
  }

  /**
   * `get_user_token`: the text after the header's first space, provided the header is present
   * and non-empty, starts with `bearer ` in any letter case, and the rest is not blank.
   */
  function GetUserToken(header: Option<string>): (r: Result<string, AuthError>)
    ensures r == Err(MissingHeader) <==> header.None? || header == Some("")
    ensures r == Err(MalformedHeader) <==>
              header.Some? && header.value != "" && !StartsWith(Lower(header.value), SCHEME)
    ensures r == Err(EmptyToken) <==>
              header.Some? && |header.value| >= |SCHEME| && Lower(header.value[..|SCHEME|]) == SCHEME
              && IsBlank(header.value[|SCHEME|..])
    ensures r.Ok? <==>
              header.Some? && |header.value| >= |SCHEME| && Lower(header.value[..|SCHEME|]) == SCHEME
              && !IsBlank(header.value[|SCHEME|..])
    ensures r.Ok? ==> r.value == header.value[|SCHEME|..] && r.value != ""
    ensures r.Err? ==> r.error.Status() == 401
  {
    if header.None? || header.value == "" then Err(MissingHeader)
    else if !StartsWith(Lower(header.value), SCHEME) then Err(MalformedHeader)
    else
      var h := header.value;
      SchemeEndsAtFirstSpace(h);
      assert Lower(h[..|SCHEME|]) == Lower(h)[..|SCHEME|];
      match IndexOf(h, ' ')
      case Some(i) =>
        var token := h[i + 1..];
        StripEmptyIffBlank(token);
        if token == "" || Strip(token) == "" then Err(EmptyToken) else Ok(token)
  }

  /**
   * `get_user_id`: the header checks of `get_user_token`, then one provider call with the
   * token; a reply without a user, or a raising provider, is "Invalid token".
   */
  function GetUserId(header: Option<string>, provider: string -> ProviderReply): (r: Lookup)
    ensures GetUserToken(header).Err? ==> r.result == GetUserToken(header) && r.sent == []
    ensures GetUserToken(header).Ok? ==> r.sent == [GetUserToken(header).value]
    ensures r.result.Ok? ==>
              GetUserToken(header).Ok? && provider(GetUserToken(header).value) == UserReply(Some(r.result.value))
    ensures GetUserToken(header).Ok? && provider(GetUserToken(header).value).UserReply?
            && provider(GetUserToken(header).value).user.Some? ==>
              r.result == Ok(provider(GetUserToken(header).value).user.value)
    ensures r.result.Err? && GetUserToken(header).Ok? ==> r.result.error == InvalidToken
  {
    match GetUserToken(header)
    case Err(e) => Lookup(Err(e), [])
    case Ok(token) =>
      match provider(token)
      case UserReply(Some(id)) => Lookup(Ok(id), [token])
      case UserReply(None) => Lookup(Err(InvalidToken), [token])
      case ProviderFailed(_) => Lookup(Err(InvalidToken), [token])
  }

  /** Both dependencies accept exactly the same headers up to the provider check, so a request
      that yields a user id also yields the token that identified it. */
  lemma {:induction false} UserIdImpliesToken(header: Option<string>, provider: string -> ProviderReply)
    requires GetUserId(header, provider).result.Ok?
    ensures GetUserToken(header).Ok?
    ensures provider(GetUserToken(header).value).UserReply?
    ensures GetUserId(header, provider).sent == [GetUserToken(header).value]
  {
  }

  /** Any spelling of the scheme that lower-cases to `bearer ` is accepted and the token is
      kept verbatim. */
  lemma {:induction false} AnySchemeCase(scheme: string, token: string)
    requires Lower(scheme) == SCHEME && !IsBlank(token)
    ensures GetUserToken(Some(scheme + token)) == Ok(token)
  {
    var h := scheme + token;
    assert h[..|SCHEME|] == scheme && h[|SCHEME|..] == token;
  }

  /** The scheme is matched in any letter case: all upper case. */
  lemma UpperCaseScheme(token: string)
    requires !IsBlank(token)
    ensures GetUserToken(Some("BEARER " + token)) == Ok(token)
  {
    assert Lower("BEARER ") == SCHEME;
    AnySchemeCase("BEARER ", token);
  }

  /** The scheme is matched in any letter case: capitalised, as clients send it. */
  lemma CapitalisedScheme(token: string)
    requires !IsBlank(token)
    ensures GetUserToken(Some("Bearer " + token)) == Ok(token)
  {
    assert Lower("Bearer ") == SCHEME;
    AnySchemeCase("Bearer ", token);
  }

  /** Any spelling of the scheme followed by nothing or only white space is an empty token,
      not a malformed header. */
  lemma {:induction false} BlankTokenIsEmpty(scheme: string, tail: string)
    requires Lower(scheme) == SCHEME && IsBlank(tail)
    ensures GetUserToken(Some(scheme + tail)) == Err(EmptyToken)
  {
    var h := scheme + tail;
    assert h[..|SCHEME|] == scheme && h[|SCHEME|..] == tail;
  }

  /** Without the scheme's space, or with another scheme, the header is malformed. */
  lemma OtherSchemesAreMalformed()
    ensures GetUserToken(Some("Bearer")) == Err(MalformedHeader)
    ensures GetUserToken(Some("Basic abc")) == Err(MalformedHeader)
  {
    assert |Lower("Bearer")| < |SCHEME|;
    assert Lower("Basic abc")[1] == 'a' != SCHEME[1];
  }
}
