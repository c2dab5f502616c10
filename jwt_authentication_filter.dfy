/** The request filter of security/JwtAuthenticationFilter.java: where the
    token is taken from, which paths skip the filter, and that the request
    always goes on down the chain. Token validation, reading the user name
    from a token and loading the user are calls into code not shown here;
    they are parameters. */
module JwtAuthenticationFilter {

  import opened Wrappers
  import opened Text

  const BearerPrefix := "Bearer "

  predicate IsBearerHeader(header: Option<string>) {
    HasText(header) && StartsWith(header.value, BearerPrefix)
  }

  /** `getJwtFromRequest`: the text after "Bearer " in the Authorization
      header, else the `token` parameter when it has text, else null. */
  function GetJwtFromRequest(header: Option<string>, tokenParam: Option<string>): (r: Option<string>)
    ensures IsBearerHeader(header) ==> r == Some(header.value[|BearerPrefix|..])
    ensures !IsBearerHeader(header) && HasText(tokenParam) ==> r == tokenParam
    ensures !IsBearerHeader(header) && !HasText(tokenParam) ==> r == None
  {
    if IsBearerHeader(header) then Some(header.value[7..])
    else if HasText(tokenParam) then tokenParam
    else None
  }

  /** A header "Bearer t" yields t, whatever t is and whatever the
      parameter holds: the prefix alone already has text. */
  lemma BearerHeaderWins(token: string, tokenParam: Option<string>)
    ensures GetJwtFromRequest(Some(BearerPrefix + token), tokenParam) == Some(token)
  {
    var header := BearerPrefix + token;
    assert header[0] == 'B' && !IsJavaWhitespace(header[0]);
    assert header[..|BearerPrefix|] == BearerPrefix;
    assert header[|BearerPrefix|..] == token;
  }

  /** Any token found came from one of the two sources. */
  lemma TokenComesFromRequest(header: Option<string>, tokenParam: Option<string>)
    requires GetJwtFromRequest(header, tokenParam).Some?
    ensures var t := GetJwtFromRequest(header, tokenParam).value;
            (header.Some? && header.value == BearerPrefix + t) || (tokenParam == Some(t) && HasText(tokenParam))
  {
    var t := GetJwtFromRequest(header, tokenParam).value;
    if IsBearerHeader(header) {
      assert header.value == header.value[..7] + header.value[7..];
    }
  }

  /** `shouldNotFilter`: the authentication and OAuth2 paths skip the filter. */
  predicate ShouldNotFilter(path: string) {
    StartsWith(path, "/auth/") || StartsWith(path, "/oauth2/") || StartsWith(path, "/login/oauth2/")
  }

  /** Everything below a skipped path is skipped too. */
  lemma SkippedPathsArePrefixClosed(path: string, more: string)
    requires ShouldNotFilter(path)
    ensures ShouldNotFilter(path + more)
  {
    if StartsWith(path, "/auth/") {
      StartsWithExtends(path, more, "/auth/");
    } else if StartsWith(path, "/oauth2/") {
      StartsWithExtends(path, more, "/oauth2/");
    } else {
      StartsWithExtends(path, more, "/login/oauth2/");
    }
  }

  /** What the filter leaves behind: the user name put in the security
      context, if any, and whether the chain went on. */
  datatype FilterResult = FilterResult(authenticated: Option<string>, chainContinued: bool)

  /** `doFilterInternal`. A token that does not validate, or whose user is
      unknown, leaves the request unauthenticated; it is never refused. */
  function DoFilterInternal(header: Option<string>, tokenParam: Option<string>,
                            validateToken: string -> bool, usernameFromToken: string -> string,
                            userExists: string -> bool): (r: FilterResult)
    ensures r.chainContinued
    ensures r.authenticated.Some? <==>
              var jwt := GetJwtFromRequest(header, tokenParam);
              HasText(jwt) && validateToken(jwt.value) && userExists(usernameFromToken(jwt.value))
    ensures r.authenticated.Some? ==> r.authenticated.value == usernameFromToken(GetJwtFromRequest(header, tokenParam).value)
  {
    var jwt := GetJwtFromRequest(header, tokenParam);
    if HasText(jwt) && validateToken(jwt.value) then
      var username := usernameFromToken(jwt.value);
      if userExists(username) then FilterResult(Some(username), true)
      else FilterResult(None, true)
    else FilterResult(None, true)
  }

  /** The filter as run for a request: skipped paths pass straight on. */
  function FilterRequest(path: string, header: Option<string>, tokenParam: Option<string>,
                         validateToken: string -> bool, usernameFromToken: string -> string,
                         userExists: string -> bool): (r: FilterResult)
    ensures r.chainContinued
    ensures ShouldNotFilter(path) ==> r.authenticated.None?
    ensures !ShouldNotFilter(path) ==> r == DoFilterInternal(header, tokenParam, validateToken, usernameFromToken, userExists)
    ensures r.authenticated.Some? <==>
              && !ShouldNotFilter(path)
              && var jwt := GetJwtFromRequest(header, tokenParam);
                 HasText(jwt) && validateToken(jwt.value) && userExists(usernameFromToken(jwt.value))
  {
    if ShouldNotFilter(path) then FilterResult(None, true)
    else DoFilterInternal(header, tokenParam, validateToken, usernameFromToken, userExists)
  }
}
