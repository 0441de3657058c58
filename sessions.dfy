/**
 * The session store (the Redis database behind `redis_db`) and session
 * validation (`validate_session` in app.py).
 *
 * Every key the application writes carries a time-to-live, so the store is
 * a map of payloads together with an expiry stamp per key and a discrete
 * clock in seconds. An entry written at time `t` with time-to-live `ttl`
 * can be read while the clock is below `t + ttl`; advancing the clock drops
 * the entries whose stamp it reaches.
 */
module Sessions {
  import opened Wrappers
  import opened Roles
  import opened Web

  /** A session id: the value of the `session_token` cookie. */
  type Token = string

  /** The lifetime the callback gives every session, in seconds. */
  const SessionTtl: nat := 15

  /** The JSON object stored under a session id: `{"username": ..., "role": ...}`. */
  datatype Payload = Payload(username: string, role: Option<Role>)

  const SessionTokenMissing := HttpException(401, "Not authenticated. Session token missing")
  const UsernameMissing := HttpException(401, "Username missing in session token")

  /** The store as a value: live payloads, their expiry stamps, and the clock. */
  datatype StoreState = StoreState(payloads: map<Token, Payload>, expiresAt: map<Token, int>, now: int)

  /** Every live key has a stamp, and no stamp has been reached yet. */
  predicate WellFormed(s: StoreState)
  {
    && s.payloads.Keys == s.expiresAt.Keys
    && forall k :: k in s.expiresAt ==> s.now < s.expiresAt[k]
  }

  /** Python's `redis_db.get(key)`, with the JSON decoding folded in. */
  function Lookup(s: StoreState, key: Token): (r: Option<Payload>)
    ensures r.Some? <==> key in s.payloads
    ensures r.Some? ==> r.value == s.payloads[key]
  {
    if key in s.payloads then Some(s.payloads[key]) else None
  }

  /** Key `k` has the same expiry stamp, or none, in both states. */
  predicate SameStamp(r: StoreState, s: StoreState, k: Token)
  {
    (k in r.expiresAt <==> k in s.expiresAt) && (k in s.expiresAt ==> r.expiresAt[k] == s.expiresAt[k])
  }

  /** `redis_db.setex(key, ttl, value)`: store `v` under `key`, to expire `ttl` seconds from now. */
  function WithEntry(s: StoreState, key: Token, ttl: nat, v: Payload): (r: StoreState)
    requires ttl > 0
    ensures r.now == s.now
    ensures Lookup(r, key) == Some(v) && key in r.expiresAt && r.expiresAt[key] == s.now + ttl
    ensures forall k :: k != key ==> Lookup(r, k) == Lookup(s, k)
    ensures forall k :: k != key ==> SameStamp(r, s, k)
    ensures WellFormed(s) ==> WellFormed(r)
  {
    StoreState(s.payloads[key := v], s.expiresAt[key := s.now + ttl], s.now)
  }

  /** `redis_db.delete(key)`; deleting an absent key changes nothing. */
  function WithoutEntry(s: StoreState, key: Token): (r: StoreState)
    ensures r.now == s.now
    ensures Lookup(r, key) == None
    ensures forall k :: k != key ==> Lookup(r, k) == Lookup(s, k)
    ensures forall k :: k != key ==> SameStamp(r, s, k)
    ensures key !in s.payloads && WellFormed(s) ==> r == s
    ensures WellFormed(s) ==> WellFormed(r)
  {
    StoreState(s.payloads - {key}, s.expiresAt - {key}, s.now)
  }

  /** Whether `k` is still alive `dt` seconds from now. */
  predicate Survives(s: StoreState, k: Token, dt: nat)
  {
    k in s.payloads && k in s.expiresAt && s.now + dt < s.expiresAt[k]
  }

  /** The clock moves on by `dt` seconds; the entries whose time is up disappear. */
  function Elapse(s: StoreState, dt: nat): (r: StoreState)
    ensures r.now == s.now + dt
    ensures forall k :: Lookup(r, k) == if Survives(s, k, dt) then Lookup(s, k) else None
    ensures WellFormed(r)
  {
    StoreState(
      map k | k in s.payloads && Survives(s, k, dt) :: s.payloads[k],
      map k | k in s.expiresAt && Survives(s, k, dt) :: s.expiresAt[k],
      s.now + dt)
  }

  /**
   * `validate_session`: an absent or empty cookie, an id the store does not
   * hold, and a payload with an empty username each raise their own 401;
   * otherwise the user is the stored username with the role derived from it
   * afresh (the role stored in the payload is never read).
   */
  function ValidateOn(s: StoreState, token: Option<Token>): (r: Result<Identity, HttpException>)
    ensures (token == None || token == Some("")) ==> r == Err(SessionTokenMissing)
    ensures token.Some? && token.value != "" && Lookup(s, token.value) == None ==> r == Err(TokenExpired)
    ensures r == Err(TokenExpired) <==> token.Some? && token.value != "" && token.value !in s.payloads
    ensures token.Some? && token.value != "" && token.value in s.payloads && s.payloads[token.value].username == ""
      ==> r == Err(UsernameMissing)
    ensures r.Ok? <==> token.Some? && token.value != "" && token.value in s.payloads && s.payloads[token.value].username != ""
    ensures r.Ok? ==> r.value.username == s.payloads[token.value].username
    ensures r.Ok? ==> r.value.role == GetRole(r.value.username)
    ensures r.Err? ==> r.error.status == 401
  {
    if token == None || token.value == "" then Err(SessionTokenMissing)
    else match Lookup(s, token.value)
      case None => Err(TokenExpired)
      case Some(p) =>
        if p.username == "" then Err(UsernameMissing)
        else Ok(Identity(p.username, GetRole(p.username)))
  }

  /** The Redis database holding the sessions. */
  class SessionStore {
    var payloads: map<Token, Payload>
    var expiresAt: map<Token, int>
    var now: int

    function State(): StoreState
      reads this
    {
      StoreState(payloads, expiresAt, now)
    }

    predicate Valid()
      reads this
    {
      WellFormed(State())
    }

    /** An empty store whose clock reads `start`. */
    constructor (start: int)
      ensures Valid() && State() == StoreState(map[], map[], start)
    {
      payloads, expiresAt, now := map[], map[], start;
    }

    /** GET */
    method Get(key: Token) returns (v: Option<Payload>)
      ensures v == Lookup(State(), key)
    {
      if key in payloads {
        v := Some(payloads[key]);
      } else {
        v := None;
      }
    }

    /** SETEX */
    method SetEx(key: Token, ttl: nat, v: Payload)
      requires Valid() && ttl > 0
      modifies this
      ensures Valid() && State() == WithEntry(old(State()), key, ttl, v)
    {
      payloads := payloads[key := v];
      expiresAt := expiresAt[key := now + ttl];
    }

    /** DEL */
    method Delete(key: Token)
      requires Valid()
      modifies this
      ensures Valid() && State() == WithoutEntry(old(State()), key)
    {
      payloads := payloads - {key};
      expiresAt := expiresAt - {key};
    }

    /** Time passes; expired keys are gone. */
    method Advance(dt: nat)
      requires Valid()
      modifies this
      ensures Valid() && State() == Elapse(old(State()), dt)
    {
      var s := State();
      payloads := map k | k in s.payloads && Survives(s, k, dt) :: s.payloads[k];
      expiresAt := map k | k in s.expiresAt && Survives(s, k, dt) :: s.expiresAt[k];
      now := now + dt;
    }
  }

  /** `validate_session` against the live store. */
  method ValidateSession(store: SessionStore, token: Option<Token>) returns (r: Result<Identity, HttpException>)
    ensures r == ValidateOn(store.State(), token)
  {
    if token == None || token.value == "" {
      return Err(SessionTokenMissing);
    }
    var payload := store.Get(token.value);
    if payload == None {
      return Err(TokenExpired);
    }
    var username := payload.value.username;
    if username == "" {
      return Err(UsernameMissing);
    }
    return Ok(Identity(username, GetRole(username)));
  }

  /** No entry was written with a lifetime longer than a session's. */
  predicate WithinSessionLifetime(s: StoreState)
  {
    forall k :: k in s.expiresAt ==> s.expiresAt[k] <= s.now + SessionTtl
  }

  /** Every stored payload names a user. */
  predicate UsernamesPresent(s: StoreState)
  {
    forall k :: k in s.payloads ==> s.payloads[k].username != ""
  }

  /** The invariant the application's own writes keep. */
  predicate SessionInvariant(s: StoreState)
  {
    WellFormed(s) && WithinSessionLifetime(s) && UsernamesPresent(s)
  }

  /** Under the invariant, a live session never yields "Username missing in session token". */
  lemma NoUsernameMissing(s: StoreState, token: Option<Token>)
    requires UsernamesPresent(s)
    ensures ValidateOn(s, token) != Err(UsernameMissing)
  {
    if token.Some? && token.value != "" && token.value in s.payloads {
      assert s.payloads[token.value].username != "";
    }
  }

  /** Writing a session for a named user, for at most a session's lifetime, keeps the invariant. */
  lemma WithEntryKeepsInvariant(s: StoreState, key: Token, ttl: nat, v: Payload)
    requires SessionInvariant(s) && 0 < ttl <= SessionTtl && v.username != ""
    ensures SessionInvariant(WithEntry(s, key, ttl, v))
  {
    var r := WithEntry(s, key, ttl, v);
    forall k | k in r.payloads ensures r.payloads[k].username != "" {
      if k != key {
        assert Lookup(r, k) == Lookup(s, k);
      }
    }
  }

  lemma WithoutEntryKeepsInvariant(s: StoreState, key: Token)
    requires SessionInvariant(s)
    ensures SessionInvariant(WithoutEntry(s, key))
  {
  }

  lemma ElapseKeepsInvariant(s: StoreState, dt: nat)
    requires SessionInvariant(s)
    ensures SessionInvariant(Elapse(s, dt))
  {
  }

  /** Letting time pass in two steps is the same as letting it pass at once. */
  lemma {:induction false} ElapseAdditive(s: StoreState, a: nat, b: nat)
    ensures Elapse(Elapse(s, a), b) == Elapse(s, a + b)
  {
    var s1 := Elapse(s, a);
    var r1 := Elapse(s1, b);
    var r2 := Elapse(s, a + b);
    forall k ensures Survives(s1, k, b) <==> Survives(s, k, a + b) {
      if k in s.payloads && k in s.expiresAt && s.now + a < s.expiresAt[k] {
        assert s1.expiresAt[k] == s.expiresAt[k];
      }
    }
    assert r1.payloads == r2.payloads;
    assert r1.expiresAt == r2.expiresAt;
  }

  /**
   * Two stores at the same time that agree on a key's payload and stamp
   * agree on it ever after: validating it later gives the same answer in both.
   */
  lemma SameEntrySameFuture(r: StoreState, s: StoreState, k: Token, dt: nat)
    requires r.now == s.now && Lookup(r, k) == Lookup(s, k) && SameStamp(r, s, k)
    ensures Lookup(Elapse(r, dt), k) == Lookup(Elapse(s, dt), k)
    ensures ValidateOn(Elapse(r, dt), Some(k)) == ValidateOn(Elapse(s, dt), Some(k))
  {
    assert Survives(r, k, dt) <==> Survives(s, k, dt);
  }

  /** No session outlives its lifetime: a full lifetime later the store is empty. */
  lemma NoSessionOutlivesTtl(s: StoreState)
    requires WithinSessionLifetime(s)
    ensures Elapse(s, SessionTtl).payloads == map[]
  {
    forall k | k in s.payloads
      ensures !Survives(s, k, SessionTtl)
    {
    }
  }

  /** Validation depends on the stored username only, never on the stored role. */
  lemma StoredRoleIgnored(s: StoreState, key: Token, ttl: nat, user: string, r1: Option<Role>, r2: Option<Role>)
    requires ttl > 0
    ensures ValidateOn(WithEntry(s, key, ttl, Payload(user, r1)), Some(key))
         == ValidateOn(WithEntry(s, key, ttl, Payload(user, r2)), Some(key))
  {
  }
}
