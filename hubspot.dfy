/** The HubSpot integration's module-level functions
    (services/integrations/hubspot.py). */
module HubSpot {
  import opened Wrappers
  import opened Json
  import opened Python
  import opened KeyValueStore
  import opened Integration
  import opened OAuthState

  const Provider := "hubspot"
  const NoCredentials := "No credentials found."
  const StateMissing := "State parameter missing."
  const DecodeFailure := "Failed to decode credentials."
  const MissingToken := "Missing access token in credentials."
  const FetchFailed := "Failed to fetch items from HubSpot."

  // ---------------------------------------------------------------------------
  // The OAuth flow over the store

  /** `authorize_hubspot`: `token` stands for `secrets.token_urlsafe(32)` and
      `writeFails` for a store write that raises. */
  method Authorize(store: Redis, codec: Codec, authorizationUrl: string, userId: string, orgId: string,
                   token: string, writeFails: bool) returns (r: Result<string, Error>)
    modifies store
    ensures Step(store.data, r) ==
            AuthorizeOutcome(Provider, authorizationUrl, codec, old(store.data), userId, orgId, token, writeFails)
  {
    var encoded := codec.dumps(StateRecord(token, userId, orgId));
    var ok := store.Set(StateKey(Provider, orgId, userId), encoded, Expiry, writeFails);
    if !ok {
      return Err(RuntimeError(StoreFailure));
    }
    return Ok(authorizationUrl + "&state=" + encoded);
  }

  /** `oauth2callback_hubspot`: a truthy `error` is rejected, then a missing or
      empty `state`, both before the store is read; then the state is verified,
      the state key deleted and the exchange response stored. A failing
      credentials write is re-raised as `RuntimeError`. */
  function CallbackOutcome(codec: Codec, db: Db, request: CallbackRequest, exchange: Json,
                           writeFails: bool): (s: Step<()>)
    ensures s.result.Ok? ==> !writeFails && !Truthy(request.error) && Truthy(request.state) &&
                             VerifyState(Provider, codec, db, request.state.value).Ok?
    ensures s.db != db ==> Truthy(request.state) && VerifyState(Provider, codec, db, request.state.value).Ok?
  {
    if Truthy(request.error) then Step(db, Err(HttpException(400, request.error.value)))
    else if !Truthy(request.state) then Step(db, Err(HttpException(400, StateMissing)))
    else match VerifyState(Provider, codec, db, request.state.value)
      case Err(e) => Step(db, Err(e))
      case Ok(owner) => RedeemOutcome(Provider, codec, db, owner, exchange, RuntimeError(StoreFailure), writeFails)
  }

  /** `oauth2callback_hubspot`; `exchange` is the token endpoint's decoded response. */
  method OAuth2Callback(store: Redis, codec: Codec, request: CallbackRequest, exchange: Json,
                        writeFails: bool) returns (r: Result<(), Error>)
    modifies store
    ensures Step(store.data, r) == CallbackOutcome(codec, old(store.data), request, exchange, writeFails)
  {
    if Truthy(request.error) {
      return Err(HttpException(400, request.error.value));
    }
    if !Truthy(request.state) {
      return Err(HttpException(400, StateMissing));
    }
    var owner := CheckState(store, Provider, codec, request.state.value);
    if owner.Err? {
      return Err(owner.error);
    }
    store.Delete(StateKey(Provider, owner.value.orgId, owner.value.userId));
    var ok := store.Set(CredentialsKey(Provider, owner.value.orgId, owner.value.userId),
                        codec.dumps(exchange), Expiry, writeFails);
    if !ok {
      return Err(RuntimeError(StoreFailure));
    }
    return Ok(());
  }

  /** `get_hubspot_credentials`: an absent or empty value raises 400; a value
      that does not decode raises 500 and keeps the key; any decoded value,
      falsy or not, is returned and the key deleted. */
  function GetCredentialsOutcome(codec: Codec, db: Db, userId: string, orgId: string): (s: Step<Json>)
    ensures s.result.Ok? ==> CredentialsKey(Provider, orgId, userId) in db &&
                             s.db == db - {CredentialsKey(Provider, orgId, userId)}
    ensures s.result.Err? ==> s.db == db
  {
    var key := CredentialsKey(Provider, orgId, userId);
    var stored := Read(db, key);
    if !Truthy(stored) then Step(db, Err(HttpException(400, NoCredentials)))
    else match codec.loads(stored.value)
      case None => Step(db, Err(HttpException(500, DecodeFailure)))
      case Some(credentials) => Step(db - {key}, Ok(credentials))
  }

  method GetCredentials(store: Redis, codec: Codec, userId: string, orgId: string) returns (r: Result<Json, Error>)
    modifies store
    ensures Step(store.data, r) == GetCredentialsOutcome(codec, old(store.data), userId, orgId)
  {
    var key := CredentialsKey(Provider, orgId, userId);
    var stored := store.Get(key);
    if !Truthy(stored) {
      return Err(HttpException(400, NoCredentials));
    }
    var credentials := codec.loads(stored.value);
    if credentials.None? {
      return Err(HttpException(500, DecodeFailure));
    }
    store.Delete(key);
    return Ok(credentials.value);
  }

  // ---------------------------------------------------------------------------
  // Properties of the flow

  /** The callback raises before the store is read when the provider reports
      an error or `state` is missing or empty; it raises "State does not
      match." (or a decoding error) with the store untouched when the state
      does not verify. The exchange response and the store's write behaviour
      are then irrelevant. */
  lemma CallbackRejectsUnverified(codec: Codec, db: Db, request: CallbackRequest, exchange: Json, writeFails: bool)
    requires Truthy(request.error) || !Truthy(request.state) ||
             VerifyState(Provider, codec, db, request.state.value).Err?
    ensures CallbackOutcome(codec, db, request, exchange, writeFails).db == db
    ensures CallbackOutcome(codec, db, request, exchange, writeFails).result.Err?
    ensures Truthy(request.error) ==>
              CallbackOutcome(codec, db, request, exchange, writeFails).result ==
              Err(HttpException(400, request.error.value))
    ensures !Truthy(request.error) && !Truthy(request.state) ==>
              CallbackOutcome(codec, db, request, exchange, writeFails).result == Err(HttpException(400, StateMissing))
    ensures forall other: Json, fails: bool ::
              CallbackOutcome(codec, db, request, other, fails) == CallbackOutcome(codec, db, request, exchange, writeFails)
  {
  }

  /** The store changes only for a callback whose state matched. */
  lemma CallbackGuardsStore(codec: Codec, db: Db, request: CallbackRequest, exchange: Json, writeFails: bool)
    ensures CallbackOutcome(codec, db, request, exchange, writeFails).db != db ==>
              && !Truthy(request.error) && Truthy(request.state)
              && exists owner :: Matches(Provider, codec, db, request.state.value, owner)
  {
    if CallbackOutcome(codec, db, request, exchange, writeFails).db != db {
      var owner := VerifyState(Provider, codec, db, request.state.value).value;
      VerifyStateAccepts(Provider, codec, db, request.state.value, owner);
    }
  }

  /** A callback whose state matches deletes the state key and, unless the
      write raises, adds exactly the credentials key holding the serialised
      exchange response with expiry 600; every other key is unchanged. */
  lemma CallbackRedeems(codec: Codec, db: Db, request: CallbackRequest, exchange: Json, writeFails: bool,
                        owner: Owner)
    requires !Truthy(request.error) && Truthy(request.state)
    requires Matches(Provider, codec, db, request.state.value, owner)
    ensures
      var s := CallbackOutcome(codec, db, request, exchange, writeFails);
      var stateKey := StateKey(Provider, owner.orgId, owner.userId);
      var credentialsKey := CredentialsKey(Provider, owner.orgId, owner.userId);
      && stateKey in db && stateKey !in s.db
      && (writeFails ==> s.result == Err(RuntimeError(StoreFailure)) && s.db == db - {stateKey})
      && (!writeFails ==>
            && s.result == Ok(())
            && s.db.Keys == db.Keys - {stateKey} + {credentialsKey}
            && s.db[credentialsKey] == Entry(codec.dumps(exchange), 600)
            && forall k :: k in db && k != stateKey && k != credentialsKey ==> s.db[k] == db[k])
  {
    VerifyStateAccepts(Provider, codec, db, request.state.value, owner);
    StateKeyIsNotCredentialsKey(Provider, owner.orgId, owner.userId, owner.orgId, owner.userId);
  }

  /** `get_hubspot_credentials`: absent or empty raises 400 with the store
      unchanged; undecodable raises 500 and keeps the key; otherwise the
      decoded value is returned and the key deleted. */
  lemma GetCredentialsOutcomes(codec: Codec, db: Db, userId: string, orgId: string)
    ensures
      var s := GetCredentialsOutcome(codec, db, userId, orgId);
      var key := CredentialsKey(Provider, orgId, userId);
      && (key !in db || db[key].value == "" ==> s == Step(db, Err(HttpException(400, NoCredentials))))
      && (key in db && db[key].value != "" && codec.loads(db[key].value).None? ==>
            s == Step(db, Err(HttpException(500, DecodeFailure))))
      && (key in db && db[key].value != "" && codec.loads(db[key].value).Some? ==>
            s == Step(db - {key}, Ok(codec.loads(db[key].value).value)))
  {
  }

  /** Credentials can be picked up once: after a successful pickup the next
      call raises 400 and changes nothing. */
  lemma GetCredentialsOnce(codec: Codec, db: Db, userId: string, orgId: string)
    requires GetCredentialsOutcome(codec, db, userId, orgId).result.Ok?
    ensures
      var first := GetCredentialsOutcome(codec, db, userId, orgId);
      GetCredentialsOutcome(codec, first.db, userId, orgId) == Step(first.db, Err(HttpException(400, NoCredentials)))
  {
  }

  /** A callback is good once: after a callback whose state verified, replaying
      the same request raises 400 "State does not match." and leaves the store
      as it is, whatever the second exchange and write. */
  lemma CallbackOnce(codec: Codec, db: Db, request: CallbackRequest, exchange: Json, writeFails: bool,
                     replayExchange: Json, replayFails: bool)
    requires !Truthy(request.error) && Truthy(request.state) && VerifyState(Provider, codec, db, request.state.value).Ok?
    ensures
      var c := CallbackOutcome(codec, db, request, exchange, writeFails);
      CallbackOutcome(codec, c.db, request, replayExchange, replayFails) ==
        Step(c.db, Err(HttpException(400, StateMismatch)))
  {
    var owner := VerifyState(Provider, codec, db, request.state.value).value;
    RedeemedStateRejected(Provider, codec, db, request.state.value, owner, exchange, RuntimeError(StoreFailure), writeFails);
  }

  /** The whole flow: authorize, the redirect back carrying the URL's
      `state`, then two pickups. The first returns the exchange response, the
      second raises 400, and the store ends as it began less the two keys. */
  lemma AuthorizeCallbackPickup(codec: Codec, db: Db, authorizationUrl: string, userId: string, orgId: string,
                                token: string, code: Option<string>, exchange: Json)
    requires Lawful(codec) && DistinctKeys(exchange)
    ensures
      var a := AuthorizeOutcome(Provider, authorizationUrl, codec, db, userId, orgId, token, false);
      var encoded := codec.dumps(StateRecord(token, userId, orgId));
      var c := CallbackOutcome(codec, a.db, CallbackRequest(code, Some(encoded), None), exchange, false);
      var g1 := GetCredentialsOutcome(codec, c.db, userId, orgId);
      var g2 := GetCredentialsOutcome(codec, g1.db, userId, orgId);
      && a.result == Ok(authorizationUrl + "&state=" + encoded)
      && c.result == Ok(())
      && StateKey(Provider, orgId, userId) !in c.db
      && CredentialsKey(Provider, orgId, userId) in c.db
      && c.db[CredentialsKey(Provider, orgId, userId)] == Entry(codec.dumps(exchange), 600)
      && g1.result == Ok(exchange)
      && g2.result == Err(HttpException(400, NoCredentials))
      && g2.db == (db - {StateKey(Provider, orgId, userId)}) - {CredentialsKey(Provider, orgId, userId)}
  {
    var a := AuthorizeOutcome(Provider, authorizationUrl, codec, db, userId, orgId, token, false);
    var encoded := codec.dumps(StateRecord(token, userId, orgId));
    var c := CallbackOutcome(codec, a.db, CallbackRequest(code, Some(encoded), None), exchange, false);
    AuthorizeThenRedeem(Provider, authorizationUrl, codec, db, userId, orgId, token, exchange, RuntimeError(StoreFailure));
    PickupTwice(codec, c.db, userId, orgId, exchange);
    var stateKey, credentialsKey := StateKey(Provider, orgId, userId), CredentialsKey(Provider, orgId, userId);
    assert c.db - {credentialsKey} == (db - {stateKey}) - {credentialsKey};
  }

  /** The second half of the flow: with the serialised exchange response
      stored, the first pickup returns it and deletes it, and the second raises. */
  lemma PickupTwice(codec: Codec, db: Db, userId: string, orgId: string, exchange: Json)
    requires Lawful(codec) && DistinctKeys(exchange)
    requires CredentialsKey(Provider, orgId, userId) in db
    requires db[CredentialsKey(Provider, orgId, userId)].value == codec.dumps(exchange)
    ensures
      var g1 := GetCredentialsOutcome(codec, db, userId, orgId);
      var g2 := GetCredentialsOutcome(codec, g1.db, userId, orgId);
      && g1 == Step(db - {CredentialsKey(Provider, orgId, userId)}, Ok(exchange))
      && g2 == Step(g1.db, Err(HttpException(400, NoCredentials)))
  {
    assert codec.loads(codec.dumps(exchange)) == Some(exchange);
  }

  /** The two providers never touch each other's keys. */
  lemma ProvidersShareNoKey(kind1: string, org1: string, user1: string, kind2: string, org2: string, user2: string)
    ensures Key(Provider, kind1, org1, user1) != Key("notion", kind2, org2, user2)
  {
    ProviderKeysDisjoint(Provider, kind1, org1, user1, "notion", kind2, org2, user2);
  }

  // ---------------------------------------------------------------------------
  // Contact normalisation and `get_items_hubspot`

  /** `create_integration_item_metadata_object`, evaluating the subscripts in
      the source's order; the name is `firstname + lastname`. */
  function CreateItem(contact: Json): (r: Result<Item, Error>)
    ensures r.Ok? ==> && contact.JObject? && r.value.id == Get(contact.fields, "id")
                      && r.value.itemType == JNull && r.value.parentId == JNull
  {
    var properties :- Index(contact, "properties");
    var firstName :- Index(properties, "firstname");
    var lastName :- Index(properties, "lastname");
    var fullName :- Add(firstName, lastName);
    var id :- Index(contact, "id");
    var creationTime :- Index(properties, "createdate");
    var lastModifiedTime :- Index(properties, "lastmodifieddate");
    Ok(Item(id, JNull, fullName, creationTime, lastModifiedTime, JNull))
  }

  /** A contact with string names and the fields the normalisation reads. */
  predicate WellFormedContact(contact: Json) {
    && contact.JObject? && HasKey(contact.fields, "properties") && HasKey(contact.fields, "id")
    && var properties := Get(contact.fields, "properties");
    && properties.JObject?
    && HasKey(properties.fields, "firstname") && Get(properties.fields, "firstname").JString?
    && HasKey(properties.fields, "lastname") && Get(properties.fields, "lastname").JString?
    && HasKey(properties.fields, "createdate") && HasKey(properties.fields, "lastmodifieddate")
  }

  /** A well-formed contact normalises to its id, the first and last names
      joined with no separator, `createdate` and `lastmodifieddate`, with no
      type and no parent. */
  lemma CreateItemSpec(contact: Json)
    requires WellFormedContact(contact)
    ensures
      var properties := Get(contact.fields, "properties").fields;
      CreateItem(contact) == Ok(Item(
        Get(contact.fields, "id"),
        JNull,
        JString(Get(properties, "firstname").s + Get(properties, "lastname").s),
        Get(properties, "createdate"),
        Get(properties, "lastmodifieddate"),
        JNull))
  {
  }

  /** Normalisation raises `TypeError` on a contact that is not a dict and
      `KeyError` for the first field it reads that is missing; names that are
      neither both strings, both lists nor both numbers raise `TypeError`. */
  lemma CreateItemErrors(contact: Json)
    ensures !contact.JObject? ==> CreateItem(contact) == Err(TypeError)
    ensures contact.JObject? && !HasKey(contact.fields, "properties") ==>
              CreateItem(contact) == Err(KeyError("properties"))
    ensures contact.JObject? && HasKey(contact.fields, "properties") &&
            Get(contact.fields, "properties").JObject? &&
            !HasKey(Get(contact.fields, "properties").fields, "firstname") ==>
              CreateItem(contact) == Err(KeyError("firstname"))
    ensures contact.JObject? && HasKey(contact.fields, "properties") &&
            Get(contact.fields, "properties").JObject? &&
            Get(Get(contact.fields, "properties").fields, "firstname").JString? &&
            Get(Get(contact.fields, "properties").fields, "lastname") == JNull ==>
              CreateItem(contact) == Err(if HasKey(Get(contact.fields, "properties").fields, "lastname")
                                         then TypeError else KeyError("lastname"))
    ensures contact.JObject? && HasKey(contact.fields, "properties") &&
            Get(contact.fields, "properties").JObject? &&
            HasKey(Get(contact.fields, "properties").fields, "firstname") &&
            HasKey(Get(contact.fields, "properties").fields, "lastname") &&
            !SameKind(Get(Get(contact.fields, "properties").fields, "firstname"),
                      Get(Get(contact.fields, "properties").fields, "lastname")) ==>
              CreateItem(contact) == Err(TypeError)
    ensures CreateItem(contact).Ok? ==> contact.JObject? && HasKey(contact.fields, "id")
  {
  }

  /** The pairings `+` accepts: two strings, two lists or two numbers. */
  predicate SameKind(a: Json, b: Json) {
    (a.JString? && b.JString?) || (a.JArray? && b.JArray?) || (IsNumeric(a) && IsNumeric(b))
  }

  /** A contact with the given names, id and timestamps. */
  function Contact(firstName: string, lastName: string, id: string, created: string, modified: string): Json {
    JObject([
      ("properties", JObject([("firstname", JString(firstName)), ("lastname", JString(lastName)),
                              ("createdate", JString(created)), ("lastmodifieddate", JString(modified))])),
      ("id", JString(id))])
  }

  /** Reading a contact's top-level fields. */
  lemma {:induction false} ContactFields(firstName: string, lastName: string, id: string,
                                         created: string, modified: string)
    ensures var top := Contact(firstName, lastName, id, created, modified).fields;
            && HasKey(top, "properties") && Get(top, "properties") == top[0].1
            && HasKey(top, "id") && Get(top, "id") == JString(id)
  {
    var top := Contact(firstName, lastName, id, created, modified).fields;
    assert |"properties"| == 10 && |"id"| == 2;
    assert top[1..] == [("id", JString(id))];
    assert Lookup(top, "id") == Lookup(top[1..], "id");
  }

  /** Reading a contact's properties. */
  lemma {:induction false} ContactProperties(firstName: string, lastName: string, id: string,
                                             created: string, modified: string)
    ensures var p := Contact(firstName, lastName, id, created, modified).fields[0].1.fields;
            && HasKey(p, "firstname") && Get(p, "firstname") == JString(firstName)
            && HasKey(p, "lastname") && Get(p, "lastname") == JString(lastName)
            && HasKey(p, "createdate") && Get(p, "createdate") == JString(created)
            && HasKey(p, "lastmodifieddate") && Get(p, "lastmodifieddate") == JString(modified)
  {
    var p := Contact(firstName, lastName, id, created, modified).fields[0].1.fields;
    assert |"firstname"| == 9 && |"lastname"| == 8 && |"createdate"| == 10 && |"lastmodifieddate"| == 16;
    assert p[1..][1..][1..] == [("lastmodifieddate", JString(modified))];
    assert Lookup(p, "lastname") == Lookup(p[1..], "lastname");
    assert Lookup(p, "createdate") == Lookup(p[1..], "createdate") == Lookup(p[1..][1..], "createdate");
    assert Lookup(p, "lastmodifieddate") == Lookup(p[1..][1..][1..], "lastmodifieddate");
  }

  /** A contact normalises to its id and the first and last names joined
      with no separator: firstname "A", lastname "B" gives the name "AB". */
  lemma {:induction false} CreateItemJoinsNames(firstName: string, lastName: string, id: string,
                                                created: string, modified: string)
    ensures CreateItem(Contact(firstName, lastName, id, created, modified))
            == Ok(Item(JString(id), JNull, JString(firstName + lastName), JString(created), JString(modified), JNull))
  {
    ContactFields(firstName, lastName, id, created, modified);
    ContactProperties(firstName, lastName, id, created, modified);
    CreateItemSpec(Contact(firstName, lastName, id, created, modified));
  }

  /** The list comprehension of `get_items_hubspot`: one item per result, in
      result order, or the error of the first result that does not normalise. */
  function CreateItems(results: seq<Json>): (r: Result<seq<Item>, Error>)
    ensures r.Ok? <==> forall i :: 0 <= i < |results| ==> CreateItem(results[i]).Ok?
    ensures r.Ok? ==> |r.value| == |results| &&
                      forall i :: 0 <= i < |results| ==> r.value[i] == CreateItem(results[i]).value
    ensures r.Err? ==> exists i :: 0 <= i < |results| && CreateItem(results[i]) == Err(r.error) &&
                                   forall j :: 0 <= j < i ==> CreateItem(results[j]).Ok?
  {
    if results == [] then Ok([])
    else
      var item :- CreateItem(results[0]);
      var rest := CreateItems(results[1..]);
      if rest.Err? then
        assert exists i :: 0 <= i < |results| && CreateItem(results[i]) == Err(rest.error) &&
                           forall j :: 0 <= j < i ==> CreateItem(results[j]).Ok? by {
          var i :| 0 <= i < |results[1..]| && CreateItem(results[1..][i]) == Err(rest.error) &&
                   forall j :: 0 <= j < i ==> CreateItem(results[1..][j]).Ok?;
          assert CreateItem(results[i + 1]) == Err(rest.error);
          forall j | 0 <= j < i + 1 ensures CreateItem(results[j]).Ok? {
            if j > 0 { assert results[j] == results[1..][j - 1]; }
          }
        }
        Err(rest.error)
      else
        var items := [item] + rest.value;
        assert forall i :: 0 <= i < |results| ==> CreateItem(results[i]) == Ok(items[i]) by {
          forall i | 0 <= i < |results| ensures CreateItem(results[i]) == Ok(items[i]) {
            if i > 0 { assert results[i] == results[1..][i - 1] && items[i] == rest.value[i - 1]; }
          }
        }
        Ok(items)
  }

  /** `get_items_hubspot`: the token is checked before the request; a non-200
      status raises with that status; a dict body without `results` gives no
      items, and a list of results gives one item per result. */
  function GetItems(codec: Codec, credentials: string, response: Response): (r: Result<seq<Item>, Error>)
    ensures r.Ok? ==> && response.status == 200
                      && codec.loads(credentials).Some? && codec.loads(credentials).value.JObject?
                      && !Falsy(Get(codec.loads(credentials).value.fields, "access_token"))
    ensures r.Ok? && response.body.JObject? && Get(response.body.fields, "results").JArray? ==>
              |r.value| == |Get(response.body.fields, "results").items|
  {
    var decoded :- Loads(codec, credentials);
    var accessToken :- GetOr(decoded, "access_token", JNull);
    if Falsy(accessToken) then Err(ValueError(MissingToken))
    else if response.status != 200 then Err(HttpException(response.status, FetchFailed))
    else
      var results :- GetOr(response.body, "results", JArray([]));
      var elements :- Iterate(results);
      CreateItems(elements)
  }

  /** A missing or empty token raises before any request, so the response
      plays no part; a non-200 status raises with that status; on 200 a dict
      body without `results` yields no items and a list of results yields the
      items of `CreateItems`, one per result in order when each normalises. */
  lemma GetItemsOutcomes(codec: Codec, credentials: string, response: Response, decoded: Json)
    requires codec.loads(credentials) == Some(decoded) && decoded.JObject?
    ensures Falsy(Get(decoded.fields, "access_token")) ==>
              forall other: Response :: GetItems(codec, credentials, other) == Err(ValueError(MissingToken))
    ensures !Falsy(Get(decoded.fields, "access_token")) && response.status != 200 ==>
              GetItems(codec, credentials, response) == Err(HttpException(response.status, FetchFailed))
    ensures !Falsy(Get(decoded.fields, "access_token")) && response.status == 200 && response.body.JObject? &&
            !HasKey(response.body.fields, "results") ==>
              GetItems(codec, credentials, response) == Ok([])
    ensures !Falsy(Get(decoded.fields, "access_token")) && response.status == 200 && response.body.JObject? &&
            Get(response.body.fields, "results").JArray? ==>
              GetItems(codec, credentials, response) == CreateItems(Get(response.body.fields, "results").items)
  {
  }
}
