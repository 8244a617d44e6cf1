/** The client session store of `shared/model/session.ts`: the token cell and its
    copy in local storage, the derived session, and the single-flight token refresh.

    The asynchronous refresh is modelled as a sequence of events on one store:
    `RequestRefresh` is one call of `refreshToken` up to its `await`; `Resolve` and
    `Reject` are the refresh request completing; `Settle` is the `finally` that
    empties the in-flight slot and hands its one outcome to every waiting caller. */
module Session {
  import opened Common

  /** The local storage key under which the token is kept. */
  const TOKEN_KEY := "token"

  /** Seconds before expiry at which a token is already renewed. */
  const REFRESH_BUFFER := 30

  /** The claims `jwtDecode` reads out of a token. */
  datatype Claims = Claims(userId: string, email: string, exp: int, iat: int)

  /** What the promise held in `refreshTokenPromise` finished with: a value (the new
      token, or null) or a rejection of the refresh request. */
  datatype Outcome = Fulfilled(value: Option<string>) | Rejected

  /** The in-flight refresh: which `POST /auth/refresh` it is (numbered from 1), how
      many `refreshToken` calls await it, and its outcome once the request completed. */
  datatype Flight = Flight(call: nat, waiters: nat, outcome: Option<Outcome>)

  /** What one `refreshToken` call does up to its `await`. */
  datatype Decision = NoToken | StillLive(token: string) | StartRenewal | JoinRenewal(call: nat)

  /** What the caller of `refreshToken` gets: a value at once, or a place among the
      waiters of refresh request number `call`. */
  datatype Reply = Now(value: Option<string>) | Await(call: nat)

  /** `localStorage.getItem(TOKEN_KEY)`. */
  function StoredToken(storage: map<string, string>): (t: Option<string>)
    ensures t.Some? <==> TOKEN_KEY in storage
    ensures t.Some? ==> storage[TOKEN_KEY] == t.value
  {
    if TOKEN_KEY in storage then Some(storage[TOKEN_KEY]) else None
  }

  /** `Math.floor(Date.now() / 1000)`: the whole seconds of a millisecond clock. */
  function EpochSeconds(clockMs: int): (s: int)
    ensures s * 1000 <= clockMs < s * 1000 + 1000
  {
    clockMs / 1000
  }

  /** The renewal test `exp <= now + BUFFER`. */
  predicate Expiring(exp: int, now: int) {
    exp <= now + REFRESH_BUFFER
  }

  /** `jwtDecode` succeeds on every token the code decodes: a truthy one.
      The code does not catch a decoding error, so this is demanded of callers. */
  predicate Decodable(token: Option<string>, decode: string -> Option<Claims>) {
    Truthy(token) ==> decode(token.value).Some?
  }

  /** The branch one `refreshToken` call takes, given the token cell, the in-flight
      slot and the current second. */
  function Decide(token: Option<string>, slot: Option<Flight>,
                  decode: string -> Option<Claims>, now: int): (d: Decision)
    requires Decodable(token, decode)
    ensures d == NoToken <==> !Truthy(token)
    ensures d.StillLive? <==> Truthy(token) && !Expiring(decode(token.value).value.exp, now)
    ensures d.StillLive? ==> d.token == token.value
    ensures d.StartRenewal? <==> Truthy(token) && Expiring(decode(token.value).value.exp, now) && slot.None?
    ensures d.JoinRenewal? <==> Truthy(token) && Expiring(decode(token.value).value.exp, now) && slot.Some?
    ensures d.JoinRenewal? ==> d.call == slot.value.call
  {
    if !Truthy(token) then NoToken
    else if Expiring(decode(token.value).value.exp, now) then
      (if slot.None? then StartRenewal else JoinRenewal(slot.value.call))
    else StillLive(token.value)
  }

  /** What the caller receives for a decision; `calls` counts the refresh requests
      started before it. */
  function ReplyFor(d: Decision, calls: nat): Reply {
    match d
    case NoToken => Now(None)
    case StillLive(t) => Now(Some(t))
    case StartRenewal => Await(calls + 1)
    case JoinRenewal(c) => Await(c)
  }

  /** A caller that does not wait gets the stored token when it is truthy and still
      live, and null otherwise; it never gets anything else. */
  lemma {:induction false} ImmediateReplies(token: Option<string>, slot: Option<Flight>,
                                            decode: string -> Option<Claims>, now: int, calls: nat)
    requires Decodable(token, decode)
    ensures ReplyFor(Decide(token, slot, decode, now), calls).Now? <==>
              !Truthy(token) || !Expiring(decode(token.value).value.exp, now)
    ensures ReplyFor(Decide(token, slot, decode, now), calls) == Now(None) <==> !Truthy(token)
    ensures Truthy(token) ==>
              (ReplyFor(Decide(token, slot, decode, now), calls) == Now(token) <==>
               !Expiring(decode(token.value).value.exp, now))
  {
    var d := Decide(token, slot, decode, now);
    match d
    case NoToken =>
    case StillLive(t) =>
    case StartRenewal =>
    case JoinRenewal(c) =>
  }

  /** The boundary of the buffer is inclusive: 30 seconds left is already renewed,
      31 seconds left is not. */
  lemma BufferBoundary(now: int)
    ensures Expiring(now + REFRESH_BUFFER, now)
    ensures !Expiring(now + REFRESH_BUFFER + 1, now)
  {
  }

  /** The value the `then` callbacks give the waiters for a refresh response whose
      `data?.accessToken ?? null` is `accessToken`. */
  function Delivered(accessToken: Option<string>): (v: Option<string>)
    ensures v.Some? <==> Truthy(accessToken)
    ensures v.Some? ==> v == accessToken
  {
    if Truthy(accessToken) then accessToken else None
  }

  /** The store behind `useSession`, together with the module-level in-flight slot. */
  class SessionStore {
    /** The browser's local storage. */
    var storage: map<string, string>
    /** The `token` state cell. */
    var token: Option<string>
    /** `refreshTokenPromise`. */
    var slot: Option<Flight>
    /** How many `POST /auth/refresh` requests have been started. */
    var refreshCalls: nat
    /** How many of them have settled. */
    var settledCalls: nat
    /** How many times `refreshToken` has been called. */
    ghost var refreshRequests: nat

    /** The token cell mirrors local storage, and at most one refresh request is
        unsettled: the latest one, held in the slot, with at least one waiter. */
    ghost predicate Valid()
      reads this
    {
      && StoredToken(storage) == token
      && settledCalls + (if slot.Some? then 1 else 0) == refreshCalls
      && (slot.Some? ==> slot.value.call == refreshCalls && slot.value.waiters >= 1)
    }

    /** The store as the page loads: the token cell starts from local storage. */
    constructor (storage: map<string, string>)
      ensures Valid()
      ensures this.storage == storage && token == StoredToken(storage)
      ensures slot == None && refreshCalls == 0 && settledCalls == 0 && refreshRequests == 0
    {
      this.storage := storage;
      token := StoredToken(storage);
      slot := None;
      refreshCalls, settledCalls := 0, 0;
      refreshRequests := 0;
    }

    /** `session`: the decoded token, or null when no truthy token is held. */
    function CurrentSession(decode: string -> Option<Claims>): (s: Option<Claims>)
      reads this
      requires Decodable(token, decode)
      ensures s.None? <==> !Truthy(token)
      ensures s.Some? ==> decode(token.value) == s
    {
      if Truthy(token) then decode(token.value) else None
    }

    /** `login(t)`: store the token under `TOKEN_KEY` and in the token cell. */
    method Login(t: string)
      requires Valid()
      modifies this
      ensures Valid()
      ensures storage == old(storage)[TOKEN_KEY := t] && token == Some(t)
      ensures slot == old(slot) && refreshCalls == old(refreshCalls) && settledCalls == old(settledCalls)
      ensures refreshRequests == old(refreshRequests)
    {
      storage := storage[TOKEN_KEY := t];
      token := Some(t);
    }

    /** `logout()`: remove the token from local storage and the token cell. */
    method Logout()
      requires Valid()
      modifies this
      ensures Valid()
      ensures storage == old(storage) - {TOKEN_KEY} && token == None
      ensures slot == old(slot) && refreshCalls == old(refreshCalls) && settledCalls == old(settledCalls)
      ensures refreshRequests == old(refreshRequests)
    {
      storage := storage - {TOKEN_KEY};
      token := None;
    }

    /** One call of `refreshToken` up to its `await`. Without a truthy token it
        answers null, and with a live one the token itself, both without touching
        the slot. An expiring token starts refresh request number `refreshCalls`
        when the slot is empty, and otherwise joins the request in the slot. */
    method RequestRefresh(decode: string -> Option<Claims>, clockMs: int) returns (r: Reply)
      requires Valid() && Decodable(token, decode)
      modifies this
      ensures Valid()
      ensures r == ReplyFor(Decide(old(token), old(slot), decode, EpochSeconds(clockMs)), old(refreshCalls))
      ensures refreshRequests == old(refreshRequests) + 1
      ensures storage == old(storage) && token == old(token) && settledCalls == old(settledCalls)
      ensures r.Now? ==> slot == old(slot) && refreshCalls == old(refreshCalls)
      ensures r.Await? && old(slot).None? ==>
                refreshCalls == old(refreshCalls) + 1 && slot == Some(Flight(refreshCalls, 1, None))
      ensures r.Await? && old(slot).Some? ==>
                refreshCalls == old(refreshCalls) &&
                slot == Some(old(slot).value.(waiters := old(slot).value.waiters + 1))
    {
      refreshRequests := refreshRequests + 1;
      if !Truthy(token) {
        return Now(None);
      }
      var exp := decode(token.value).value.exp;
      var now := EpochSeconds(clockMs);
      if exp <= now + REFRESH_BUFFER {
        if slot.None? {
          refreshCalls := refreshCalls + 1;
          slot := Some(Flight(refreshCalls, 1, None));
        } else {
          slot := Some(slot.value.(waiters := slot.value.waiters + 1));
        }
        return Await(slot.value.call);
      }
      return Now(token);
    }

    /** The refresh request came back with `data?.accessToken ?? null` equal to
        `accessToken`: a truthy token is logged in and becomes the outcome, anything
        else logs out and the outcome is null. */
    method Resolve(accessToken: Option<string>)
      requires Valid() && slot.Some? && slot.value.outcome.None?
      modifies this
      ensures Valid()
      ensures Truthy(accessToken) ==>
                storage == old(storage)[TOKEN_KEY := accessToken.value] && token == accessToken
      ensures !Truthy(accessToken) ==> storage == old(storage) - {TOKEN_KEY} && token == None
      ensures slot == Some(old(slot).value.(outcome := Some(Fulfilled(Delivered(accessToken)))))
      ensures refreshCalls == old(refreshCalls) && settledCalls == old(settledCalls)
      ensures refreshRequests == old(refreshRequests)
    {
      var flight := slot.value;
      if Truthy(accessToken) {
        Login(accessToken.value);
      } else {
        Logout();
      }
      slot := Some(flight.(outcome := Some(Fulfilled(Delivered(accessToken)))));
    }

    /** The refresh request was rejected: the `then` callbacks are skipped, so the
        token is neither replaced nor cleared. */
    method Reject()
      requires Valid() && slot.Some? && slot.value.outcome.None?
      modifies this
      ensures Valid()
      ensures storage == old(storage) && token == old(token)
      ensures slot == Some(old(slot).value.(outcome := Some(Rejected)))
      ensures refreshCalls == old(refreshCalls) && settledCalls == old(settledCalls)
      ensures refreshRequests == old(refreshRequests)
    {
      slot := Some(slot.value.(outcome := Some(Rejected)));
    }

    /** The `finally`: the slot is emptied whatever the outcome, and every waiter of
        that request receives the one outcome returned here. */
    method Settle() returns (call: nat, waiters: nat, outcome: Outcome)
      requires Valid() && slot.Some? && slot.value.outcome.Some?
      modifies this
      ensures Valid()
      ensures slot == None && settledCalls == old(settledCalls) + 1
      ensures call == old(slot).value.call && waiters == old(slot).value.waiters
      ensures outcome == old(slot).value.outcome.value
      ensures storage == old(storage) && token == old(token) && refreshCalls == old(refreshCalls)
      ensures refreshRequests == old(refreshRequests)
    {
      call, waiters, outcome := slot.value.call, slot.value.waiters, slot.value.outcome.value;
      slot := None;
      settledCalls := settledCalls + 1;
    }
  }

  /** `n` callers call `refreshToken` while the token is expiring and no refresh is
      in flight, then the refresh request completes with `accessToken`: exactly one
      request is started, every caller waits on it, that request settles with all `n`
      of them as its waiters, and they all receive its one outcome, which is also
      what the token cell then holds. */
  method ConcurrentRefresh(store: SessionStore, n: nat, decode: string -> Option<Claims>,
                           clockMs: int, accessToken: Option<string>)
    returns (replies: seq<Reply>, settled: nat, waiters: nat, outcome: Outcome)
    requires store.Valid() && Decodable(store.token, decode)
    requires Truthy(store.token)
    requires Expiring(decode(store.token.value).value.exp, EpochSeconds(clockMs))
    requires store.slot.None? && n >= 1
    modifies store
    ensures store.Valid()
    ensures store.refreshCalls == old(store.refreshCalls) + 1
    ensures store.refreshRequests == old(store.refreshRequests) + n
    ensures |replies| == n && forall i :: 0 <= i < n ==> replies[i] == Await(store.refreshCalls)
    ensures settled == store.refreshCalls && waiters == n
    ensures outcome == Fulfilled(Delivered(accessToken)) && store.token == Delivered(accessToken)
    ensures store.slot.None?
  {
    var first := store.RequestRefresh(decode, clockMs);
    replies := [first];
    var call := store.refreshCalls;
    while |replies| < n
      invariant store.Valid() && 1 <= |replies| <= n
      invariant store.token == old(store.token) && store.refreshCalls == call == old(store.refreshCalls) + 1
      invariant store.refreshRequests == old(store.refreshRequests) + |replies|
      invariant store.slot == Some(Flight(call, |replies|, None))
      invariant forall i :: 0 <= i < |replies| ==> replies[i] == Await(call)
      decreases n - |replies|
    {
      var r := store.RequestRefresh(decode, clockMs);
      replies := replies + [r];
    }
    store.Resolve(accessToken);
    settled, waiters, outcome := store.Settle();
  }
}
