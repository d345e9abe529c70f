/**
 The calls the user service makes to the identity provider: the admin token
 request, and the single-user and user-list requests that carry the token as
 a bearer credential. What the provider answers is an input (an oracle reply);
 these functions decide what the service makes of each answer.
 */
module IdentityProvider {
  import opened Wrappers

  /** The fields of a provider user record that the service hands on. */
  datatype User = User(id: string, username: string, email: string, firstName: string,
                       lastName: string, enabled: bool)

  /** A value in the token response body, as far as the cast to `String` can tell. */
  datatype Json = JString(s: string) | JNull | JOther

  /** The answer to the token request: it threw (network error, non-2xx
      status), or it returned a body, which may be null. */
  datatype TokenReply = TokenFailed | TokenBody(body: Option<map<string, Json>>)

  /** The answer to the single-user request. */
  datatype UserReply = UserFailed | UserBody(body: Option<User>)

  /** The answer to the user-list request. */
  datatype UsersReply = UsersFailed | UsersBody(body: Option<seq<User>>)

  /** The request headers carrying the admin token. */
  datatype Headers = BearerAuth(token: string)

  /** `getAdminToken`: the `access_token` of a non-null body. A missing key, a
      null value and a non-string value (whose cast throws and is caught) all
      give no token. */
  function AdminToken(reply: TokenReply): (t: Option<string>)
    ensures t.Some? <==> reply.TokenBody? && reply.body.Some?
                         && "access_token" in reply.body.value
                         && reply.body.value["access_token"].JString?
    ensures t.Some? ==> reply.body.value["access_token"] == JString(t.value)
  {
    match reply
    case TokenBody(Some(body)) =>
      if "access_token" in body then
        match body["access_token"]
        case JString(s) => Some(s)
        case _ => None
      else None
    case _ => None
  }

  /** `createAuthHeaders`: bearer headers exactly when a token was obtained. */
  function AuthHeaders(reply: TokenReply): (h: Option<Headers>)
    ensures h.Some? <==> AdminToken(reply).Some?
    ensures h.Some? ==> h.value.token == AdminToken(reply).value
  {
    match AdminToken(reply)
    case Some(t) => Some(BearerAuth(t))
    case None => None
  }

  /** `fetchUserFromKeycloak`: the body of the single-user answer, or nothing
      when there are no headers or the request throws. */
  function FetchUser(token: TokenReply, reply: UserReply): (u: Option<User>)
    ensures u.Some? <==> AdminToken(token).Some? && reply.UserBody? && reply.body.Some?
    ensures u.Some? ==> reply == UserBody(u)
  {
    match AuthHeaders(token)
    case None => None
    case Some(_) =>
      match reply
      case UserFailed => None
      case UserBody(body) => body
  }

  /** The user-list request inside `syncAllUsers`: the list, or nothing when
      there are no headers, the request throws or the body is null. */
  function FetchAll(token: TokenReply, reply: UsersReply): (us: Option<seq<User>>)
    ensures us.Some? <==> AdminToken(token).Some? && reply.UsersBody? && reply.body.Some?
    ensures us.Some? ==> reply == UsersBody(us)
  {
    match AuthHeaders(token)
    case None => None
    case Some(_) =>
      match reply
      case UsersFailed => None
      case UsersBody(body) => body
  }

  /** Without a token the user endpoints are never consulted: whatever they
      would answer, both fetches give nothing. */
  lemma NoTokenNoFetch(token: TokenReply, u: UserReply, us: UsersReply)
    requires AdminToken(token).None?
    ensures FetchUser(token, u).None?
    ensures FetchAll(token, us).None?
  {
  }
}
