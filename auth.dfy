/**
 * Resolving the caller's user id from the `Authorization` header: the
 * header checks, the token extraction, and the mapping of every failure to
 * a 401 error. The identity service's `get_user` is the oracle `lookup`.
 */
module Auth {
  import opened Wrappers
  import opened Strings

  /** The `HTTPException` raised: its status code and detail. */
  datatype AuthError = AuthError(status: int, detail: string)

  /** What `get_user(token)` gives: a user with its id, a falsy answer or no user, or an exception. */
  datatype Lookup = UserFound(id: string) | NoUser | LookupRaised(message: string)

  const UNAUTHORIZED: int := 401
  const BEARER: string := "Bearer "
  const HEADER_MISSING: string := "Authorization header missing"
  const INVALID_FORMAT: string := "Invalid token format"
  const AUTH_FAILED: string := "Authentication failed"

  /** `authorization.replace("Bearer ", "").strip()`. */
  function Token(header: string): (t: string)
    ensures |t| <= |header|
    ensures t == [] || (!IsSpace(t[0]) && !IsSpace(t[|t| - 1]))
  {
    Strip(RemoveAll(header, BEARER))
  }

  /**
   * `get_user_id_from_token`: the user id, or a 401 error whose detail says
   * which check failed. The "User not authenticated" error raised inside the
   * `try` is caught by its own handler and replaced by "Authentication failed".
   */
  function GetUserIdFromToken(header: Option<string>, lookup: string -> Lookup): (r: Result<string, AuthError>)
    ensures r.Failure? ==> r.error.status == UNAUTHORIZED
    ensures r == Failure(AuthError(UNAUTHORIZED, HEADER_MISSING)) <==> header.None? || header.value == []
    ensures r == Failure(AuthError(UNAUTHORIZED, INVALID_FORMAT)) <==> header.Some? && header.value != [] && Token(header.value) == []
    ensures r.Success? <==> header.Some? && Token(header.value) != [] && lookup(Token(header.value)).UserFound?
    ensures r.Success? ==> r.value == lookup(Token(header.value)).id
    ensures r.Failure? ==> r.error.detail in {HEADER_MISSING, INVALID_FORMAT, AUTH_FAILED}
  {
    if header.None? || header.value == [] then Failure(AuthError(UNAUTHORIZED, HEADER_MISSING))
    else
      var token := Token(header.value);
      if token == [] then Failure(AuthError(UNAUTHORIZED, INVALID_FORMAT))
      else
        match lookup(token)
        case UserFound(id) => Success(id)
        case NoUser => Failure(AuthError(UNAUTHORIZED, AUTH_FAILED))
        case LookupRaised(_) => Failure(AuthError(UNAUTHORIZED, AUTH_FAILED))
  }

  /** Removing the marker from a text that starts with it removes that first copy. */
  lemma RemoveLeadingBearer(t: string)
    ensures RemoveAll(BEARER + t, BEARER) == RemoveAll(t, BEARER)
  {
    var s := BEARER + t;
    assert s[..|BEARER|] == BEARER;
    assert s[|BEARER|..] == t;
  }

  /** "Bearer <token>" yields the token, for a trimmed token that holds no further "Bearer ". */
  lemma BearerHeaderYieldsToken(t: string)
    requires !Contains(t, BEARER) && Strip(t) == t
    ensures Token(BEARER + t) == t
  {
    RemoveLeadingBearer(t);
  }

  /** A bare token without the scheme passes through unchanged. */
  lemma RawTokenPassesThrough(t: string)
    requires !Contains(t, BEARER) && Strip(t) == t
    ensures Token(t) == t
  {
  }

  /** A header of blanks is present, so it fails as a malformed token, not as a missing header. */
  lemma BlankHeaderIsInvalidFormat(header: string, lookup: string -> Lookup)
    requires header != [] && forall i :: 0 <= i < |header| ==> IsSpace(header[i])
    ensures GetUserIdFromToken(Some(header), lookup) == Failure(AuthError(UNAUTHORIZED, INVALID_FORMAT))
  {
    assert !Contains(header, BEARER) by {
      NoBearerInBlanks(header);
    }
  }

  lemma {:induction false} NoBearerInBlanks(s: string)
    requires forall i :: 0 <= i < |s| ==> IsSpace(s[i])
    ensures !Contains(s, BEARER)
    decreases |s|
  {
    assert !StartsWith(s, BEARER) by {
      if |BEARER| <= |s| {
        assert s[..|BEARER|][0] == s[0] && BEARER[0] == 'B';
      }
    }
    if s != [] {
      NoBearerInBlanks(s[1..]);
    }
  }

  /** Every lookup failure, raised or falsy, gives the same "Authentication failed" error. */
  lemma LookupFailuresAgree(header: string, message: string, lookup1: string -> Lookup, lookup2: string -> Lookup)
    requires Token(header) != []
    requires lookup1(Token(header)) == NoUser && lookup2(Token(header)) == LookupRaised(message)
    ensures GetUserIdFromToken(Some(header), lookup1) == GetUserIdFromToken(Some(header), lookup2)
                                                      == Failure(AuthError(UNAUTHORIZED, AUTH_FAILED))
  {
  }
}
