/** The `onRequest` middleware of `shared/api/instance.ts`: requests to the login
    and refresh endpoints pass untouched; every other request asks the session for
    a token once and carries it as a bearer credential when one is returned. */
module Interceptor {
  import opened Common
  import opened Strings
  import Session

  const AUTHORIZATION := "Authorization"
  const BEARER_PREFIX := "Bearer "
  const LOGIN_PATH := "/auth/login"
  const REFRESH_PATH := "/auth/refresh"

  /** Requests that skip the token: the path starts with the login or refresh path. */
  predicate Bypassed(pathname: string) {
    StartsWith(pathname, LOGIN_PATH) || StartsWith(pathname, REFRESH_PATH)
  }

  /** The test is on prefixes: whatever follows a bypassed path is bypassed too. */
  lemma {:induction false} BypassIsPrefixTest(pathname: string, rest: string)
    requires Bypassed(pathname)
    ensures Bypassed(pathname + rest)
  {
    if StartsWith(pathname, LOGIN_PATH) {
      StartsWithAppend(pathname, LOGIN_PATH, rest);
    } else {
      StartsWithAppend(pathname, REFRESH_PATH, rest);
    }
  }

  /** Registration and the board endpoints are not bypassed; login and refresh,
      with or without further path segments or a query, are. */
  lemma BypassExamples()
    ensures Bypassed("/auth/login") && Bypassed("/auth/refresh")
    ensures Bypassed("/auth/login/extra") && Bypassed("/auth/refreshed")
    ensures !Bypassed("/auth/register") && !Bypassed("/boards") && !Bypassed("/boards/board-1/rename")
    ensures !Bypassed("/auth") && !Bypassed("/api/auth/login")
  {
    var register := "/auth/register";
    assert register[..|LOGIN_PATH|][6] != LOGIN_PATH[6];
    assert register[..|REFRESH_PATH|][8] != REFRESH_PATH[8];
    var rename := "/boards/board-1/rename";
    assert rename[..|LOGIN_PATH|][1] != LOGIN_PATH[1];
    assert rename[..|REFRESH_PATH|][1] != REFRESH_PATH[1];
    var api := "/api/auth/login";
    assert api[..|LOGIN_PATH|][2] != LOGIN_PATH[2];
    assert api[..|REFRESH_PATH|][2] != REFRESH_PATH[2];
  }

  /** The header value `Bearer ${token}`. */
  function BearerValue(token: string): (v: string)
    ensures StartsWith(v, BEARER_PREFIX)
    ensures |v| == |BEARER_PREFIX| + |token| && v[|BEARER_PREFIX|..] == token
  {
    BEARER_PREFIX + token
  }

  /** Reads the token back out of an `Authorization` value, as the receiving side does. */
  function BearerToken(value: string): (t: Option<string>)
    ensures t.Some? <==> StartsWith(value, BEARER_PREFIX)
    ensures t.Some? ==> BEARER_PREFIX + t.value == value
  {
    if StartsWith(value, BEARER_PREFIX) then Some(value[|BEARER_PREFIX|..]) else None
  }

  /** The header carries exactly the token it was made from. */
  lemma {:induction false} BearerRoundTrip(token: string)
    ensures BearerToken(BearerValue(token)) == Some(token)
  {
    var v := BearerValue(token);
    assert v[..|BEARER_PREFIX|] == BEARER_PREFIX;
  }

  /** `if (token) request.headers.set("Authorization", ...)`: only the
      `Authorization` entry can change, and only for a truthy token. */
  function WithToken(headers: map<string, string>, token: Option<string>): (h: map<string, string>)
    ensures forall name :: name != AUTHORIZATION ==>
              (name in h <==> name in headers) && (name in h ==> h[name] == headers[name])
    ensures Truthy(token) ==> AUTHORIZATION in h && BearerToken(h[AUTHORIZATION]) == token
    ensures !Truthy(token) ==> h == headers
  {
    if Truthy(token) then
      BearerRoundTrip(token.value);
      headers[AUTHORIZATION := BearerValue(token.value)]
    else headers
  }

  /** An outbound request: the URL and its path are fixed, the headers are mutable. */
  class Request {
    const url: string
    /** `new URL(request.url).pathname`. */
    const pathname: string
    var headers: map<string, string>

    constructor (url: string, pathname: string, headers: map<string, string>)
      ensures this.url == url && this.pathname == pathname && this.headers == headers
    {
      this.url := url;
      this.pathname := pathname;
      this.headers := headers;
    }
  }

  /** Where `onRequest` stands after its synchronous part: the request was returned
      for dispatch, or it awaits refresh request number `call`. */
  datatype Interception = Forwarded | Suspended(call: nat)

  /** How a suspended request ends: dispatched, or failed with the rejection of the
      refresh request (the `await` throws). */
  datatype Resumption = Dispatched | Failed

  /** `onRequest` up to the `await` of `refreshToken`. A bypassed request is returned
      as it is without consulting the session. Any other request calls `refreshToken`
      exactly once; an immediate token is set as the bearer header, an immediate null
      leaves the headers alone and the request is still dispatched. */
  method OnRequest(request: Request, session: Session.SessionStore,
                   decode: string -> Option<Session.Claims>, clockMs: int)
    returns (r: Interception)
    requires session.Valid() && Session.Decodable(session.token, decode)
    modifies request, session
    ensures session.Valid()
    ensures Bypassed(request.pathname) ==>
              r == Forwarded && request.headers == old(request.headers) && unchanged(session)
    ensures !Bypassed(request.pathname) ==>
              var reply := Session.ReplyFor(Session.Decide(old(session.token), old(session.slot), decode,
                                                           Session.EpochSeconds(clockMs)),
                                            old(session.refreshCalls));
              && session.refreshRequests == old(session.refreshRequests) + 1
              && session.token == old(session.token) && session.storage == old(session.storage)
              && session.settledCalls == old(session.settledCalls)
              && (reply.Now? ==> session.slot == old(session.slot) && session.refreshCalls == old(session.refreshCalls))
              && (reply.Await? && old(session.slot).None? ==>
                    session.refreshCalls == old(session.refreshCalls) + 1
                    && session.slot == Some(Session.Flight(session.refreshCalls, 1, None)))
              && (reply.Await? && old(session.slot).Some? ==>
                    session.refreshCalls == old(session.refreshCalls)
                    && session.slot == Some(old(session.slot).value.(waiters := old(session.slot).value.waiters + 1)))
              && (reply.Now? ==> r == Forwarded && request.headers == WithToken(old(request.headers), reply.value))
              && (reply.Await? ==> r == Suspended(reply.call) && request.headers == old(request.headers))
  {
    if Bypassed(request.pathname) {
      return Forwarded;
    }
    var reply := session.RequestRefresh(decode, clockMs);
    if reply.Now? {
      request.headers := WithToken(request.headers, reply.value);
      return Forwarded;
    }
    return Suspended(reply.call);
  }

  /** Two requests intercepted while the token is expiring and no refresh is in
      flight both wait on the one refresh request the first of them started. */
  method SharedRefresh(first: Request, second: Request, session: Session.SessionStore,
                       decode: string -> Option<Session.Claims>, clockMs: int)
    returns (r1: Interception, r2: Interception)
    requires session.Valid() && Session.Decodable(session.token, decode)
    requires !Bypassed(first.pathname) && !Bypassed(second.pathname)
    requires Truthy(session.token) && session.slot.None?
    requires Session.Expiring(decode(session.token.value).value.exp, Session.EpochSeconds(clockMs))
    modifies first, second, session
    ensures r1 == r2 == Suspended(old(session.refreshCalls) + 1)
    ensures session.refreshCalls == old(session.refreshCalls) + 1
    ensures session.slot == Some(Session.Flight(session.refreshCalls, 2, None))
  {
    r1 := OnRequest(first, session, decode, clockMs);
    r2 := OnRequest(second, session, decode, clockMs);
  }

  /** The rest of `onRequest` once the refresh it awaits has settled with `outcome`:
      a truthy new token becomes the bearer header; a null one leaves the headers
      alone; a rejection propagates and the request is not sent. */
  method Resume(request: Request, outcome: Session.Outcome) returns (r: Resumption)
    modifies request
    ensures outcome.Rejected? ==> r == Failed && request.headers == old(request.headers)
    ensures outcome.Fulfilled? ==>
              r == Dispatched && request.headers == WithToken(old(request.headers), outcome.value)
  {
    if outcome.Rejected? {
      return Failed;
    }
    request.headers := WithToken(request.headers, outcome.value);
    return Dispatched;
  }
}
