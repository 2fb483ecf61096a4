/** The authorization-code flow both processors implement (section 4.1 of
    RFC 6749, with `state` as the CSRF guard of section 10.12): the store keys,
    the state record, and the steps the two providers share. */
module OAuthState {
  import opened Wrappers
  import opened Json
  import opened Python
  import opened KeyValueStore

  /** Seconds both the state record and the credentials are kept. */
  const Expiry: nat := 600

  const StateMismatch := "State does not match."
  const StoreFailure := "Failed to store state in Redis"

  /** `f"{provider}_{kind}:{org_id}:{user_id}"`. */
  function Key(provider: string, kind: string, orgId: string, userId: string): string {
    provider + "_" + kind + ":" + orgId + ":" + userId
  }

  function StateKey(provider: string, orgId: string, userId: string): string {
    Key(provider, "state", orgId, userId)
  }

  function CredentialsKey(provider: string, orgId: string, userId: string): string {
    Key(provider, "credentials", orgId, userId)
  }

  /** The `{state, user_id, org_id}` dict `authorize` serialises. */
  function StateRecord(token: string, userId: string, orgId: string): Json {
    JObject([("state", JString(token)), ("user_id", JString(userId)), ("org_id", JString(orgId))])
  }

  /** Reading the record back with `.get` gives the token and the two ids. */
  lemma {:induction false} StateRecordFields(token: string, userId: string, orgId: string)
    ensures Get(StateRecord(token, userId, orgId).fields, "state") == JString(token)
    ensures Get(StateRecord(token, userId, orgId).fields, "user_id") == JString(userId)
    ensures Get(StateRecord(token, userId, orgId).fields, "org_id") == JString(orgId)
  {
    var fields := StateRecord(token, userId, orgId).fields;
    var rest := [("user_id", JString(userId)), ("org_id", JString(orgId))];
    assert fields[1..] == rest && rest[1..] == [("org_id", JString(orgId))];
    assert |"state"| == 5 && |"user_id"| == 7 && |"org_id"| == 6;
    assert Lookup(fields, "user_id") == Lookup(rest, "user_id") == Some(JString(userId));
    assert Lookup(fields, "org_id") == Lookup(rest, "org_id") == Lookup(rest[1..], "org_id");
  }

  /** The state record repeats no key, so it survives a round trip. */
  lemma StateRecordDistinct(token: string, userId: string, orgId: string)
    ensures DistinctKeys(StateRecord(token, userId, orgId))
  {
    var fields := StateRecord(token, userId, orgId).fields;
    assert |"state"| == 5 && |"user_id"| == 7 && |"org_id"| == 6;
    assert forall i, j :: 0 <= i < j < |fields| ==> |fields[i].0| != |fields[j].0|;
  }

  /** The query parameters of the redirect back from the provider. */
  datatype CallbackRequest = CallbackRequest(code: Option<string>, state: Option<string>, error: Option<string>)

  /** The org and user a verified state names, rendered as the key's f-string renders them. */
  datatype Owner = Owner(orgId: string, userId: string)

  /** The store after an operation, and what the operation returned or raised. */
  datatype Step<T> = Step(db: Db, result: Result<T, Error>)

  /** `authorize`: store the serialised state record under the state key and
      return the authorization URL with that same serialisation as `state`. A
      failed write raises `RuntimeError` and returns no URL. */
  function AuthorizeOutcome(provider: string, authorizationUrl: string, codec: Codec, db: Db,
                            userId: string, orgId: string, token: string, writeFails: bool): (s: Step<string>)
    ensures writeFails ==> s == Step(db, Err(RuntimeError(StoreFailure)))
    ensures !writeFails ==>
      var key := StateKey(provider, orgId, userId);
      var prefix := authorizationUrl + "&state=";
      && s.db.Keys == db.Keys + {key}
      && s.db[key].expire == Expiry
      && s.result.Ok? && prefix <= s.result.value && s.result.value[|prefix|..] == s.db[key].value
      && forall k :: k in db && k != key ==> s.db[k] == db[k]
  {
    var encoded := codec.dumps(StateRecord(token, userId, orgId));
    if writeFails then Step(db, Err(RuntimeError(StoreFailure)))
    else Step(db[StateKey(provider, orgId, userId) := Entry(encoded, Expiry)],
              Ok(authorizationUrl + "&state=" + encoded))
  }

  /** The part of both callbacks from decoding the inbound `state` to the token
      comparison: the inbound state must decode to a dict; the saved state for
      the org and user it names must be present and non-empty, decode to a dict,
      and carry the same `state` token. No step writes to the store. */
  function VerifyState(provider: string, codec: Codec, db: Db, encoded: string): (r: Result<Owner, Error>)
    ensures r.Ok? ==> codec.loads(encoded).Some? && codec.loads(encoded).value.JObject?
    ensures r.Ok? ==> StateKey(provider, r.value.orgId, r.value.userId) in db &&
                      db[StateKey(provider, r.value.orgId, r.value.userId)].value != ""
  {
    var inbound :- Loads(codec, encoded);
    if !inbound.JObject? then Err(AttributeError)
    else
    var token, userId, orgId := Get(inbound.fields, "state"), Get(inbound.fields, "user_id"), Get(inbound.fields, "org_id");
    var saved := Read(db, StateKey(provider, Str(orgId), Str(userId)));
    if !Truthy(saved) then Err(HttpException(400, StateMismatch))
    else
      var record :- Loads(codec, saved.value);
      var savedToken :- GetOr(record, "state", JNull);
      if token != savedToken then Err(HttpException(400, StateMismatch))
      else Ok(Owner(Str(orgId), Str(userId)))
  }

  /** The inbound state names `owner`, and the state saved for `owner` carries
      the token the inbound state carries. */
  ghost predicate Matches(provider: string, codec: Codec, db: Db, encoded: string, owner: Owner) {
    match codec.loads(encoded)
    case None => false
    case Some(inbound) =>
      && inbound.JObject?
      && owner == Owner(Str(Get(inbound.fields, "org_id")), Str(Get(inbound.fields, "user_id")))
      && var key := StateKey(provider, owner.orgId, owner.userId);
      && key in db && db[key].value != ""
      && match codec.loads(db[key].value)
         case None => false
         case Some(saved) => saved.JObject? && Get(saved.fields, "state") == Get(inbound.fields, "state")
  }

  /** The CSRF check: verification succeeds exactly when the tokens match. */
  lemma VerifyStateAccepts(provider: string, codec: Codec, db: Db, encoded: string, owner: Owner)
    ensures VerifyState(provider, codec, db, encoded) == Ok(owner) <==> Matches(provider, codec, db, encoded, owner)
  {
  }

  /** The state `authorize` stores, sent back unchanged, matches its owner. */
  lemma AuthorizedStateMatches(provider: string, authorizationUrl: string, codec: Codec, db: Db,
                               userId: string, orgId: string, token: string)
    requires Lawful(codec)
    ensures Matches(provider, codec, AuthorizeOutcome(provider, authorizationUrl, codec, db, userId, orgId, token, false).db,
                    codec.dumps(StateRecord(token, userId, orgId)), Owner(orgId, userId))
  {
    var record := StateRecord(token, userId, orgId);
    StateRecordDistinct(token, userId, orgId);
    StateRecordFields(token, userId, orgId);
    assert codec.loads(codec.dumps(record)) == Some(record);
  }

  /** `authorize` either stores the state record under exactly the state key,
      with expiry 600, and returns the URL whose `state` parameter is that same
      serialisation (which decodes back to the token and the two ids), or, when
      the write raises, returns no URL and leaves the store as it was. */
  lemma AuthorizeStoresState(provider: string, codec: Codec, db: Db, authorizationUrl: string,
                             userId: string, orgId: string, token: string, writeFails: bool)
    requires Lawful(codec)
    ensures
      var s := AuthorizeOutcome(provider, authorizationUrl, codec, db, userId, orgId, token, writeFails);
      var key := StateKey(provider, orgId, userId);
      && (writeFails ==> s == Step(db, Err(RuntimeError(StoreFailure))))
      && (!writeFails ==>
            && key in s.db && s.db[key].expire == 600
            && s.result == Ok(authorizationUrl + "&state=" + s.db[key].value)
            && codec.loads(s.db[key].value) == Some(StateRecord(token, userId, orgId))
            && s.db.Keys == db.Keys + {key}
            && forall k :: k in db && k != key ==> s.db[k] == db[k])
  {
    StateRecordDistinct(token, userId, orgId);
  }

  /** A saved state that is absent, or whose token differs from the inbound
      one, is rejected with 400 "State does not match.". */
  lemma VerifyStateRejects(provider: string, codec: Codec, db: Db, encoded: string, inbound: Json)
    requires codec.loads(encoded) == Some(inbound) && inbound.JObject?
    ensures
      var key := StateKey(provider, Str(Get(inbound.fields, "org_id")), Str(Get(inbound.fields, "user_id")));
      (key !in db || (exists saved :: codec.loads(db[key].value) == Some(saved) && saved.JObject? &&
                                     Get(saved.fields, "state") != Get(inbound.fields, "state")))
      ==> VerifyState(provider, codec, db, encoded) == Err(HttpException(400, StateMismatch))
  {
  }

  /** The callback's end state once the state is verified (the two awaited
      tasks read in sequence): the state key is gone and, unless the write
      raises `writeError`, the credentials key holds the serialised exchange
      response. */
  function RedeemOutcome(provider: string, codec: Codec, db: Db, owner: Owner, exchange: Json,
                         writeError: Error, writeFails: bool): (s: Step<()>)
    ensures StateKey(provider, owner.orgId, owner.userId) !in s.db
    ensures s.result == if writeFails then Err(writeError) else Ok(())
    ensures !writeFails ==> CredentialsKey(provider, owner.orgId, owner.userId) in s.db &&
                            s.db[CredentialsKey(provider, owner.orgId, owner.userId)] == Entry(codec.dumps(exchange), Expiry)
    ensures forall k :: (k in db && k != StateKey(provider, owner.orgId, owner.userId) &&
                         k != CredentialsKey(provider, owner.orgId, owner.userId)) ==> k in s.db && s.db[k] == db[k]
    ensures s.db.Keys <= db.Keys + {CredentialsKey(provider, owner.orgId, owner.userId)}
  {
    StateKeyIsNotCredentialsKey(provider, owner.orgId, owner.userId, owner.orgId, owner.userId);
    var consumed := db - {StateKey(provider, owner.orgId, owner.userId)};
    if writeFails then Step(consumed, Err(writeError))
    else Step(consumed[CredentialsKey(provider, owner.orgId, owner.userId) := Entry(codec.dumps(exchange), Expiry)],
              Ok(()))
  }

  /** The state `authorize` stores, sent back unchanged, verifies for its own
      org and user, and redeeming it with a successful write swaps the state key
      for the credentials key and touches nothing else. */
  lemma AuthorizeThenRedeem(provider: string, authorizationUrl: string, codec: Codec, db: Db,
                            userId: string, orgId: string, token: string, exchange: Json, writeError: Error)
    requires Lawful(codec)
    ensures
      var a := AuthorizeOutcome(provider, authorizationUrl, codec, db, userId, orgId, token, false);
      var encoded := codec.dumps(StateRecord(token, userId, orgId));
      && a.result == Ok(authorizationUrl + "&state=" + encoded)
      && VerifyState(provider, codec, a.db, encoded) == Ok(Owner(orgId, userId))
      && RedeemOutcome(provider, codec, a.db, Owner(orgId, userId), exchange, writeError, false) ==
         Step((db - {StateKey(provider, orgId, userId)})[CredentialsKey(provider, orgId, userId) :=
                                                          Entry(codec.dumps(exchange), Expiry)], Ok(()))
  {
    var encoded := codec.dumps(StateRecord(token, userId, orgId));
    var a := AuthorizeOutcome(provider, authorizationUrl, codec, db, userId, orgId, token, false);
    AuthorizedStateMatches(provider, authorizationUrl, codec, db, userId, orgId, token);
    VerifyStateAccepts(provider, codec, a.db, encoded, Owner(orgId, userId));
    assert a.db - {StateKey(provider, orgId, userId)} == db - {StateKey(provider, orgId, userId)};
  }

  /** A state is good for one redemption: once redeemed, whether or not the
      credentials write succeeded, the same state no longer verifies. */
  lemma RedeemedStateRejected(provider: string, codec: Codec, db: Db, encoded: string, owner: Owner,
                              exchange: Json, writeError: Error, writeFails: bool)
    requires VerifyState(provider, codec, db, encoded) == Ok(owner)
    ensures VerifyState(provider, codec, RedeemOutcome(provider, codec, db, owner, exchange, writeError, writeFails).db,
                        encoded) == Err(HttpException(400, StateMismatch))
  {
  }

  /** Reads the saved state and compares tokens, as `VerifyState` says. */
  method CheckState(store: Redis, provider: string, codec: Codec, encoded: string) returns (r: Result<Owner, Error>)
    ensures r == VerifyState(provider, codec, store.data, encoded)
  {
    var inbound := Loads(codec, encoded);
    if inbound.Err? {
      return Err(inbound.error);
    }
    if !inbound.value.JObject? {
      return Err(AttributeError);
    }
    var fields := inbound.value.fields;
    var token, userId, orgId := Get(fields, "state"), Get(fields, "user_id"), Get(fields, "org_id");
    var saved := store.Get(StateKey(provider, Str(orgId), Str(userId)));
    if !Truthy(saved) {
      return Err(HttpException(400, StateMismatch));
    }
    var record := Loads(codec, saved.value);
    if record.Err? {
      return Err(record.error);
    }
    if !record.value.JObject? {
      return Err(AttributeError);
    }
    if token != Get(record.value.fields, "state") {
      return Err(HttpException(400, StateMismatch));
    }
    return Ok(Owner(Str(orgId), Str(userId)));
  }

  /** A state key is never a credentials key. */
  lemma {:induction false} StateKeyIsNotCredentialsKey(provider: string, org1: string, user1: string,
                                                        org2: string, user2: string)
    ensures StateKey(provider, org1, user1) != CredentialsKey(provider, org2, user2)
  {
    var i := |provider| + 1;
    assert StateKey(provider, org1, user1)[i] == 's';
    assert CredentialsKey(provider, org2, user2)[i] == 'c';
  }

  /** Providers whose names start differently never share a key. */
  lemma {:induction false} ProviderKeysDisjoint(p1: string, k1: string, o1: string, u1: string,
                                                p2: string, k2: string, o2: string, u2: string)
    requires p1 != [] && p2 != [] && p1[0] != p2[0]
    ensures Key(p1, k1, o1, u1) != Key(p2, k2, o2, u2)
  {
    assert Key(p1, k1, o1, u1)[0] == p1[0];
    assert Key(p2, k2, o2, u2)[0] == p2[0];
  }

  /** Within one provider and kind, a key determines the org and user as long
      as org ids contain no ':'. */
  lemma {:induction false} KeyInjective(provider: string, kind: string, org1: string, user1: string,
                                        org2: string, user2: string)
    requires ':' !in org1 && ':' !in org2
    requires Key(provider, kind, org1, user1) == Key(provider, kind, org2, user2)
    ensures org1 == org2 && user1 == user2
  {
    var prefix := provider + "_" + kind + ":";
    var a, b := org1 + ":" + user1, org2 + ":" + user2;
    assert Key(provider, kind, org1, user1) == prefix + a;
    assert Key(provider, kind, org2, user2) == prefix + b;
    assert a == (prefix + a)[|prefix|..];
    assert b == (prefix + b)[|prefix|..];
    FirstColon(org1, user1);
    FirstColon(org2, user2);
    assert |org1| == |org2|;
    assert org1 == a[..|org1|] && org2 == b[..|org2|];
    assert user1 == a[|org1| + 1..] && user2 == b[|org2| + 1..];
  }

  /** In `org + ":" + user` with a colon-free org, the first ':' follows the org. */
  lemma FirstColon(org: string, user: string)
    requires ':' !in org
    ensures (org + ":" + user)[|org|] == ':'
    ensures forall i :: 0 <= i < |org| ==> (org + ":" + user)[i] != ':'
  {
  }

  /** With ':' in an org id two owners share a key. */
  lemma KeyCollision()
    ensures StateKey("notion", "a:b", "c") == StateKey("notion", "a", "b:c")
  {
  }
}
