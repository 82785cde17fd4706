/**
 * The live-query session-token cache: a cache-aside map from session token to
 * user id in front of the `_Session` lookup. The LRU store is a map that may
 * lose entries (`Evict`); the `_Session` query's answer is a parameter.
 */
module LiveQuerySessions {
  import opened Results
  import opened JsValue

  /** The default entry lifetime, `30 * 24 * 62 * 62 * 1000` ms as written. */
  const DefaultTimeout: int := 30 * 24 * 62 * 62 * 1000
  const DefaultMaxSize: int := 10000

  const EmptyTokenMessage: string := "Empty sessionToken!"
  const NoSessionMessage: string := "No session found for session token"

  /**
   * `userForSessionToken`: the `user` of the session the query found.
   * `session` is what the query resolves to (`undefined` when nothing matched)
   * or the error it fails with.
   */
  function UserForSessionToken(session: Result<Value, Exception>): (r: Result<Value, Exception>)
    ensures session.Err? ==> r == session
    ensures session.Ok? && !Truthy(session.value) ==> r == Err(Raised(Str(NoSessionMessage)))
    ensures session.Ok? && Truthy(session.value) ==> r == Member(session.value, "user")
  {
    match session
    case Err(e) => Err(e)
    case Ok(s) => if !Truthy(s) then Err(Raised(Str(NoSessionMessage))) else Member(s, "user")
  }

  /** `user.id` of the looked-up user; reading it from a missing user throws. */
  function UserIdFromSession(session: Result<Value, Exception>): Result<Value, Exception>
  {
    match UserForSessionToken(session)
    case Err(e) => Err(e)
    case Ok(user) => Member(user, "id")
  }

  /** A session that matched and has a user object yields that user's id. */
  lemma UserIdOfFoundSession(session: Value, user: Props)
    requires session.Obj? && Lookup(session.props, "user") == Obj(user)
    ensures UserIdFromSession(Ok(session)) == Ok(Lookup(user, "id"))
  {
  }

  /** No matching session: the lookup fails with the fixed message. */
  lemma NoSessionFails()
    ensures UserIdFromSession(Ok(Undefined)) == Err(Raised(Str(NoSessionMessage)))
    ensures UserIdFromSession(Ok(Null)) == Err(Raised(Str(NoSessionMessage)))
  {
  }

  class SessionTokenCache {
    /** The entries the LRU still holds. */
    var cache: map<string, Value>
    const max: int
    const maxAge: int

    constructor(timeout: int := DefaultTimeout, maxSize: int := DefaultMaxSize)
      ensures cache == map[] && max == maxSize && maxAge == timeout
    {
      cache := map[];
      max := maxSize;
      maxAge := timeout;
    }

    /** The LRU dropping an entry (by size or age); when it does so is not modelled. */
    method Evict(token: string)
      modifies this
      ensures cache == old(cache) - {token}
    {
      cache := cache - {token};
    }

    /**
     * `getUserId`: an empty token is refused; a truthy cached id is returned
     * without a query; otherwise the query's user id is returned and cached,
     * or its error is passed on and nothing is cached. `queried` tells whether
     * the `_Session` lookup was consulted.
     */
    method GetUserId(sessionToken: string, session: Result<Value, Exception>)
      returns (r: Result<Value, Exception>, queried: bool)
      modifies this
      ensures sessionToken == "" ==>
        r == Err(Raised(Str(EmptyTokenMessage))) && !queried && cache == old(cache)
      ensures sessionToken != "" && sessionToken in old(cache) && Truthy(old(cache)[sessionToken]) ==>
        r == Ok(old(cache)[sessionToken]) && !queried && cache == old(cache)
      ensures queried <==>
        sessionToken != "" && !(sessionToken in old(cache) && Truthy(old(cache)[sessionToken]))
      ensures queried ==> r == UserIdFromSession(session)
      ensures queried && r.Ok? ==> cache == old(cache)[sessionToken := r.value]
      ensures queried && r.Err? ==> cache == old(cache)
    {
      if sessionToken == "" {
        return Err(Raised(Str(EmptyTokenMessage))), false;
      }
      if sessionToken in cache && Truthy(cache[sessionToken]) {
        return Ok(cache[sessionToken]), false;
      }
      queried := true;
      r := UserIdFromSession(session);
      if r.Ok? {
        cache := cache[sessionToken := r.value];
      }
    }
  }
}
