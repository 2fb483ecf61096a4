/** `NotionIntegrationProcessor` and the page normalisation beside it
    (services/integrations/notion.py). */
module Notion {
  import opened Wrappers
  import opened Json
  import opened Python
  import opened KeyValueStore
  import opened Integration
  import opened OAuthState

  const Provider := "notion"
  const NoCredentials := "No credentials found."

  // ---------------------------------------------------------------------------
  // The OAuth flow over the store

  /** `authorize`: `token` stands for `secrets.token_urlsafe(32)` and
      `writeFails` for a store write that raises. */
  method Authorize(store: Redis, codec: Codec, authorizationUrl: string, userId: string, orgId: string,
                   token: string, writeFails: bool) returns (r: Result<string, Error>)
    modifies store
    ensures Step(store.data, r) ==
            AuthorizeOutcome(Provider, authorizationUrl, codec, old(store.data), userId, orgId, token, writeFails)
  {
    var encoded := codec.dumps(StateRecord(token, userId, orgId));
    var ok := store.Set(StateKey(Provider, orgId, userId), encoded, Expiry, writeFails);
    if !ok {
      return Err(RuntimeError(StoreFailure));
    }
    return Ok(authorizationUrl + "&state=" + encoded);
  }

  /** `oauth2callback`: a truthy `error` is rejected; a missing `state` reaches
      `json.loads(None)`, which raises `TypeError`; then the state is verified,
      the state key deleted and the exchange response stored. A failing
      credentials write escapes unwrapped. */
  function CallbackOutcome(codec: Codec, db: Db, request: CallbackRequest, exchange: Json,
                           writeFails: bool): (s: Step<()>)
    ensures s.result.Ok? ==> !writeFails && !Truthy(request.error) && request.state.Some? &&
                             VerifyState(Provider, codec, db, request.state.value).Ok?
    ensures s.db != db ==> request.state.Some? && VerifyState(Provider, codec, db, request.state.value).Ok?
  {
    if Truthy(request.error) then Step(db, Err(HttpException(400, request.error.value)))
    else if request.state.None? then Step(db, Err(TypeError))
    else match VerifyState(Provider, codec, db, request.state.value)
      case Err(e) => Step(db, Err(e))
      case Ok(owner) => RedeemOutcome(Provider, codec, db, owner, exchange, StoreError, writeFails)
  }

  /** `oauth2callback`; `exchange` is the token endpoint's decoded response. */
  method OAuth2Callback(store: Redis, codec: Codec, request: CallbackRequest, exchange: Json,
                        writeFails: bool) returns (r: Result<(), Error>)
    modifies store
    ensures Step(store.data, r) == CallbackOutcome(codec, old(store.data), request, exchange, writeFails)
  {
    if Truthy(request.error) {
      return Err(HttpException(400, request.error.value));
    }
    if request.state.None? {
      return Err(TypeError);
    }
    var owner := CheckState(store, Provider, codec, request.state.value);
    if owner.Err? {
      return Err(owner.error);
    }
    store.Delete(StateKey(Provider, owner.value.orgId, owner.value.userId));
    var ok := store.Set(CredentialsKey(Provider, owner.value.orgId, owner.value.userId),
                        codec.dumps(exchange), Expiry, writeFails);
    if !ok {
      return Err(StoreError);
    }
    return Ok(());
  }

  /** `get_credentials`: an absent or empty value, and a value that decodes to
      something falsy, both raise "No credentials found." and keep the key. */
  function GetCredentialsOutcome(codec: Codec, db: Db, userId: string, orgId: string): (s: Step<Json>)
    ensures s.result.Ok? ==> CredentialsKey(Provider, orgId, userId) in db &&
                             s.db == db - {CredentialsKey(Provider, orgId, userId)} && !Falsy(s.result.value)
    ensures s.result.Err? ==> s.db == db
  {
    var key := CredentialsKey(Provider, orgId, userId);
    var stored := Read(db, key);
    if !Truthy(stored) then Step(db, Err(HttpException(400, NoCredentials)))
    else match Loads(codec, stored.value)
      case Err(e) => Step(db, Err(e))
      case Ok(credentials) =>
        if Falsy(credentials) then Step(db, Err(HttpException(400, NoCredentials)))
        else Step(db - {key}, Ok(credentials))
  }

  method GetCredentials(store: Redis, codec: Codec, userId: string, orgId: string) returns (r: Result<Json, Error>)
    modifies store
    ensures Step(store.data, r) == GetCredentialsOutcome(codec, old(store.data), userId, orgId)
  {
    var key := CredentialsKey(Provider, orgId, userId);
    var stored := store.Get(key);
    if !Truthy(stored) {
      return Err(HttpException(400, NoCredentials));
    }
    var credentials := Loads(codec, stored.value);
    if credentials.Err? {
      return Err(credentials.error);
    }
    if Falsy(credentials.value) {
      return Err(HttpException(400, NoCredentials));
    }
    store.Delete(key);
    return Ok(credentials.value);
  }

  // ---------------------------------------------------------------------------
  // Properties of the flow

  /** The callback raises before any exchange and leaves the store untouched
      when the provider reports an error, when `state` is missing, or when the
      state does not verify (absent saved state, different token, undecodable
      records); the exchange response and the store's write behaviour are then
      irrelevant. */
  lemma CallbackRejectsUnverified(codec: Codec, db: Db, request: CallbackRequest, exchange: Json, writeFails: bool)
    requires Truthy(request.error) || request.state.None? ||
             VerifyState(Provider, codec, db, request.state.value).Err?
    ensures CallbackOutcome(codec, db, request, exchange, writeFails).db == db
    ensures CallbackOutcome(codec, db, request, exchange, writeFails).result.Err?
    ensures Truthy(request.error) ==>
              CallbackOutcome(codec, db, request, exchange, writeFails).result ==
              Err(HttpException(400, request.error.value))
    ensures !Truthy(request.error) && request.state.None? ==>
              CallbackOutcome(codec, db, request, exchange, writeFails).result == Err(TypeError)
    ensures forall other: Json, fails: bool ::
              CallbackOutcome(codec, db, request, other, fails) == CallbackOutcome(codec, db, request, exchange, writeFails)
  {
  }

  /** The store changes only for a callback whose state matched. */
  lemma CallbackGuardsStore(codec: Codec, db: Db, request: CallbackRequest, exchange: Json, writeFails: bool)
    ensures CallbackOutcome(codec, db, request, exchange, writeFails).db != db ==>
              && !Truthy(request.error) && request.state.Some?
              && exists owner :: Matches(Provider, codec, db, request.state.value, owner)
  {
    if CallbackOutcome(codec, db, request, exchange, writeFails).db != db {
      var owner := VerifyState(Provider, codec, db, request.state.value).value;
      VerifyStateAccepts(Provider, codec, db, request.state.value, owner);
    }
  }

  /** A callback whose state matches deletes the state key and, unless the
      write raises, adds exactly the credentials key holding the serialised
      exchange response with expiry 600; every other key is unchanged. */
  lemma CallbackRedeems(codec: Codec, db: Db, request: CallbackRequest, exchange: Json, writeFails: bool,
                        owner: Owner)
    requires !Truthy(request.error) && request.state.Some?
    requires Matches(Provider, codec, db, request.state.value, owner)
    ensures
      var s := CallbackOutcome(codec, db, request, exchange, writeFails);
      var stateKey := StateKey(Provider, owner.orgId, owner.userId);
      var credentialsKey := CredentialsKey(Provider, owner.orgId, owner.userId);
      && stateKey in db && stateKey !in s.db
      && (writeFails ==> s.result == Err(StoreError) && s.db == db - {stateKey})
      && (!writeFails ==>
            && s.result == Ok(())
            && s.db.Keys == db.Keys - {stateKey} + {credentialsKey}
            && s.db[credentialsKey] == Entry(codec.dumps(exchange), 600)
            && forall k :: k in db && k != stateKey && k != credentialsKey ==> s.db[k] == db[k])
  {
    VerifyStateAccepts(Provider, codec, db, request.state.value, owner);
    StateKeyIsNotCredentialsKey(Provider, owner.orgId, owner.userId, owner.orgId, owner.userId);
  }

  /** `get_credentials` raises and keeps the store when the key is absent or
      empty, when its value does not decode, or when it decodes to a falsy
      value; otherwise it returns the decoded value and deletes the key. */
  lemma GetCredentialsOutcomes(codec: Codec, db: Db, userId: string, orgId: string)
    ensures
      var s := GetCredentialsOutcome(codec, db, userId, orgId);
      var key := CredentialsKey(Provider, orgId, userId);
      && (key !in db || db[key].value == "" ==> s == Step(db, Err(HttpException(400, NoCredentials))))
      && (key in db && db[key].value != "" && codec.loads(db[key].value).None? ==>
            s == Step(db, Err(JsonDecodeError)))
      && (key in db && db[key].value != "" && codec.loads(db[key].value).Some? ==>
            var credentials := codec.loads(db[key].value).value;
            if Falsy(credentials) then s == Step(db, Err(HttpException(400, NoCredentials)))
            else s == Step(db - {key}, Ok(credentials)))
  {
  }

  /** Credentials can be picked up once: after a successful `get_credentials`
      the next call for the same org and user raises "No credentials found."
      and changes nothing. */
  lemma GetCredentialsOnce(codec: Codec, db: Db, userId: string, orgId: string)
    requires GetCredentialsOutcome(codec, db, userId, orgId).result.Ok?
    ensures
      var first := GetCredentialsOutcome(codec, db, userId, orgId);
      GetCredentialsOutcome(codec, first.db, userId, orgId) == Step(first.db, Err(HttpException(400, NoCredentials)))
  {
  }

  /** A callback is good once: after a callback whose state verified, replaying
      the same request raises 400 "State does not match." and leaves the store
      as it is, whatever the second exchange and write. */
  lemma CallbackOnce(codec: Codec, db: Db, request: CallbackRequest, exchange: Json, writeFails: bool,
                     replayExchange: Json, replayFails: bool)
    requires !Truthy(request.error) && request.state.Some? && VerifyState(Provider, codec, db, request.state.value).Ok?
    ensures
      var c := CallbackOutcome(codec, db, request, exchange, writeFails);
      CallbackOutcome(codec, c.db, request, replayExchange, replayFails) ==
        Step(c.db, Err(HttpException(400, StateMismatch)))
  {
    var owner := VerifyState(Provider, codec, db, request.state.value).value;
    RedeemedStateRejected(Provider, codec, db, request.state.value, owner, exchange, StoreError, writeFails);
  }

  /** The whole flow: `authorize`, then the provider redirects back with the
      URL's `state`, then `get_credentials` twice. The callback verifies,
      consumes the state and stores the exchange response; the first pickup
      returns it (when it is truthy) and the second raises. */
  lemma AuthorizeCallbackPickup(codec: Codec, db: Db, authorizationUrl: string, userId: string, orgId: string,
                                token: string, code: Option<string>, exchange: Json)
    requires Lawful(codec) && DistinctKeys(exchange) && !Falsy(exchange)
    ensures
      var a := AuthorizeOutcome(Provider, authorizationUrl, codec, db, userId, orgId, token, false);
      var encoded := codec.dumps(StateRecord(token, userId, orgId));
      var c := CallbackOutcome(codec, a.db, CallbackRequest(code, Some(encoded), None), exchange, false);
      var g1 := GetCredentialsOutcome(codec, c.db, userId, orgId);
      var g2 := GetCredentialsOutcome(codec, g1.db, userId, orgId);
      && a.result == Ok(authorizationUrl + "&state=" + encoded)
      && c.result == Ok(())
      && StateKey(Provider, orgId, userId) !in c.db
      && CredentialsKey(Provider, orgId, userId) in c.db
      && c.db[CredentialsKey(Provider, orgId, userId)] == Entry(codec.dumps(exchange), 600)
      && g1.result == Ok(exchange)
      && g2.result == Err(HttpException(400, NoCredentials))
      && g2.db == (db - {StateKey(Provider, orgId, userId)}) - {CredentialsKey(Provider, orgId, userId)}
  {
    var a := AuthorizeOutcome(Provider, authorizationUrl, codec, db, userId, orgId, token, false);
    var encoded := codec.dumps(StateRecord(token, userId, orgId));
    var c := CallbackOutcome(codec, a.db, CallbackRequest(code, Some(encoded), None), exchange, false);
    AuthorizeThenRedeem(Provider, authorizationUrl, codec, db, userId, orgId, token, exchange, StoreError);
    PickupTwice(codec, c.db, userId, orgId, exchange);
    var stateKey, credentialsKey := StateKey(Provider, orgId, userId), CredentialsKey(Provider, orgId, userId);
    assert c.db - {credentialsKey} == (db - {stateKey}) - {credentialsKey};
  }

  /** The second half of the flow: with the serialised exchange response
      stored, the first pickup returns it and deletes it, and the second raises. */
  lemma PickupTwice(codec: Codec, db: Db, userId: string, orgId: string, exchange: Json)
    requires Lawful(codec) && DistinctKeys(exchange) && !Falsy(exchange)
    requires CredentialsKey(Provider, orgId, userId) in db
    requires db[CredentialsKey(Provider, orgId, userId)].value == codec.dumps(exchange)
    ensures
      var g1 := GetCredentialsOutcome(codec, db, userId, orgId);
      var g2 := GetCredentialsOutcome(codec, g1.db, userId, orgId);
      && g1 == Step(db - {CredentialsKey(Provider, orgId, userId)}, Ok(exchange))
      && g2 == Step(g1.db, Err(HttpException(400, NoCredentials)))
  {
    assert codec.loads(codec.dumps(exchange)) == Some(exchange);
  }

  // ---------------------------------------------------------------------------
  // `_recursive_dict_search` on a dict. JNull is both a stored null and "not
  // found", as both are `None` in the source.

  /** The member under `key` when this dict has one (null or not); otherwise
      the first non-null result of searching the dict values and the dict
      elements of list values, in order. */
  function Find(data: Json, key: string): (r: Json)
    requires data.JObject?
    ensures HasKey(data.fields, key) ==> Lookup(data.fields, key) == Some(r)
    ensures !Mentions(data, key) ==> r == JNull
    decreases data, 2
  {
    match Lookup(data.fields, key)
    case Some(v) => v
    case None => FindInValues(data, 0, key)
  }

  function FindInValues(data: Json, i: nat, key: string): (r: Json)
    requires data.JObject? && i <= |data.fields|
    ensures !Mentions(data, key) ==> r == JNull
    decreases data, 1, |data.fields| - i
  {
    if i == |data.fields| then JNull
    else
      var hit := FindInValue(data.fields[i].1, key);
      if hit != JNull then hit else FindInValues(data, i + 1, key)
  }

  /** One dict value: a dict is searched, a list has its dict elements
      searched, anything else is skipped. */
  function FindInValue(value: Json, key: string): (r: Json)
    ensures !Mentions(value, key) ==> r == JNull
    decreases value, 3
  {
    match value
    case JObject(_) => Find(value, key)
    case JArray(_) => FindInItems(value, 0, key)
    case _ => JNull
  }

  function FindInItems(list: Json, i: nat, key: string): (r: Json)
    requires list.JArray? && i <= |list.items|
    ensures !Mentions(list, key) ==> r == JNull
    decreases list, 1, |list.items| - i
  {
    if i == |list.items| then JNull
    else
      var item := list.items[i];
      var hit := if item.JObject? then Find(item, key) else JNull;
      if hit != JNull then hit else FindInItems(list, i + 1, key)
  }

  /** `_recursive_dict_search(data, key)` for any argument: on a non-dict the
      `in` test raises, or, for a list or string containing the key, the
      subscript `data[target_key]`, or else the `.values()` call. */
  function RecursiveDictSearch(data: Json, key: string): (r: Result<Json, Error>)
    ensures r.Ok? <==> data.JObject?
    ensures data.JObject? ==> r == Ok(Find(data, key))
  {
    match data
    case JObject(_) => Ok(Find(data, key))
    case JArray(items) => if JString(key) in items then Err(TypeError) else Err(AttributeError)
    case JString(s) => if IsSubstring(key, s) then Err(TypeError) else Err(AttributeError)
    case _ => Err(TypeError)
  }

  predicate IsSubstring(key: string, s: string) {
    exists i | 0 <= i <= |s| :: key <= s[i..]
  }

  // Reference definitions for the search.

  /** Every value the search can stop at, in depth-first order: the member
      under `key` of each searched dict that has one; a dict with such a
      member is not searched below. */
  function Hits(data: Json, key: string): seq<Json>
    requires data.JObject?
    decreases data, 2
  {
    match Lookup(data.fields, key)
    case Some(v) => [v]
    case None => HitsInValues(data, 0, key)
  }

  function HitsInValues(data: Json, i: nat, key: string): seq<Json>
    requires data.JObject? && i <= |data.fields|
    decreases data, 1, |data.fields| - i
  {
    if i == |data.fields| then [] else HitsInValue(data.fields[i].1, key) + HitsInValues(data, i + 1, key)
  }

  function HitsInValue(value: Json, key: string): seq<Json>
    decreases value, 3
  {
    match value
    case JObject(_) => Hits(value, key)
    case JArray(_) => HitsInItems(value, 0, key)
    case _ => []
  }

  function HitsInItems(list: Json, i: nat, key: string): seq<Json>
    requires list.JArray? && i <= |list.items|
    decreases list, 1, |list.items| - i
  {
    if i == |list.items| then []
    else (if list.items[i].JObject? then Hits(list.items[i], key) else []) + HitsInItems(list, i + 1, key)
  }

  function FirstNonNull(s: seq<Json>): Json {
    if s == [] then JNull else if s[0] != JNull then s[0] else FirstNonNull(s[1..])
  }

  /** Some dict reachable through dict values and dict elements of list values
      has a member named `key`. */
  predicate Mentions(value: Json, key: string)
    decreases value
  {
    match value
    case JObject(fields) =>
      HasKey(fields, key) || exists i :: 0 <= i < |fields| && Mentions(fields[i].1, key)
    case JArray(items) =>
      exists i :: 0 <= i < |items| && items[i].JObject? && Mentions(items[i], key)
    case _ => false
  }

  lemma {:induction false} FirstNonNullAppend(a: seq<Json>, b: seq<Json>)
    ensures FirstNonNull(a + b) == if FirstNonNull(a) != JNull then FirstNonNull(a) else FirstNonNull(b)
  {
    if a != [] {
      assert (a + b)[1..] == a[1..] + b;
      FirstNonNullAppend(a[1..], b);
    } else {
      assert a + b == b;
    }
  }

  /** The search returns the first non-null hit in depth-first order. */
  lemma {:induction false} FindIsFirstHit(data: Json, key: string)
    requires data.JObject?
    ensures Find(data, key) == FirstNonNull(Hits(data, key))
    decreases data, 2
  {
    if Lookup(data.fields, key).None? {
      FindInValuesIsFirstHit(data, 0, key);
    }
  }

  lemma {:induction false} FindInValuesIsFirstHit(data: Json, i: nat, key: string)
    requires data.JObject? && i <= |data.fields|
    ensures FindInValues(data, i, key) == FirstNonNull(HitsInValues(data, i, key))
    decreases data, 1, |data.fields| - i
  {
    if i < |data.fields| {
      FindInValueIsFirstHit(data.fields[i].1, key);
      FindInValuesIsFirstHit(data, i + 1, key);
      FirstNonNullAppend(HitsInValue(data.fields[i].1, key), HitsInValues(data, i + 1, key));
    }
  }

  lemma {:induction false} FindInValueIsFirstHit(value: Json, key: string)
    ensures FindInValue(value, key) == FirstNonNull(HitsInValue(value, key))
    decreases value, 3
  {
    match value
    case JObject(_) => FindIsFirstHit(value, key);
    case JArray(_) => FindInItemsIsFirstHit(value, 0, key);
    case _ =>
  }

  lemma {:induction false} FindInItemsIsFirstHit(list: Json, i: nat, key: string)
    requires list.JArray? && i <= |list.items|
    ensures FindInItems(list, i, key) == FirstNonNull(HitsInItems(list, i, key))
    decreases list, 1, |list.items| - i
  {
    if i < |list.items| {
      var item := list.items[i];
      if item.JObject? {
        FindIsFirstHit(item, key);
      }
      FindInItemsIsFirstHit(list, i + 1, key);
      FirstNonNullAppend(if item.JObject? then Hits(item, key) else [], HitsInItems(list, i + 1, key));
    }
  }

  /** A key that no searched dict holds is never found. */
  lemma {:induction false} NoHitsWithoutMention(data: Json, key: string)
    requires data.JObject? && !Mentions(data, key)
    ensures Hits(data, key) == []
    decreases data, 2
  {
    NoHitsInValuesWithoutMention(data, 0, key);
  }

  lemma {:induction false} NoHitsInValuesWithoutMention(data: Json, i: nat, key: string)
    requires data.JObject? && i <= |data.fields| && !Mentions(data, key)
    ensures HitsInValues(data, i, key) == []
    decreases data, 1, |data.fields| - i
  {
    if i < |data.fields| {
      var value := data.fields[i].1;
      assert !Mentions(value, key);
      match value {
        case JObject(_) => NoHitsWithoutMention(value, key);
        case JArray(_) => NoHitsInItemsWithoutMention(value, 0, key);
        case _ =>
      }
      NoHitsInValuesWithoutMention(data, i + 1, key);
    }
  }

  lemma {:induction false} NoHitsInItemsWithoutMention(list: Json, i: nat, key: string)
    requires list.JArray? && i <= |list.items| && !Mentions(list, key)
    ensures HitsInItems(list, i, key) == []
    decreases list, 1, |list.items| - i
  {
    if i < |list.items| {
      if list.items[i].JObject? {
        NoHitsWithoutMention(list.items[i], key);
      }
      NoHitsInItemsWithoutMention(list, i + 1, key);
    }
  }

  /** The three outcomes of the search: a member at this level is returned
      as it is, even when null and whatever the other members hold; otherwise
      the first non-null hit below, in depth-first order; a key mentioned
      nowhere gives None. */
  lemma SearchOutcomes(data: Json, key: string)
    requires data.JObject?
    ensures HasKey(data.fields, key) ==> Lookup(data.fields, key) == Some(Find(data, key))
    ensures !HasKey(data.fields, key) ==> Find(data, key) == FirstNonNull(HitsInValues(data, 0, key))
    ensures !Mentions(data, key) ==> Find(data, key) == JNull
  {
    FindIsFirstHit(data, key);
    if !Mentions(data, key) {
      NoHitsWithoutMention(data, key);
    }
  }

  /** Worked searches: a nested hit; a null member at the top level stops the
      search; a child search that comes back null is skipped; a list inside a
      list is not searched. */
  lemma SearchExamples()
    ensures Find(JObject([("x", JObject([("y", JObject([("content", JString("Title"))]))]))]), "content")
            == JString("Title")
    ensures Find(JObject([("content", JNull), ("b", JObject([("content", JString("x"))]))]), "content") == JNull
    ensures Find(JObject([("a", JObject([("content", JNull)])), ("b", JObject([("content", JString("x"))]))]),
                 "content") == JString("x")
    ensures Find(JObject([("a", JArray([JArray([JObject([("content", JString("deep"))])]),
                                        JObject([("content", JString("x"))])]))]), "content") == JString("x")
  {
    var t := JObject([("content", JString("Title"))]);
    var y := JObject([("y", t)]);
    assert Find(t, "content") == JString("Title");
    assert Lookup(y.fields, "content").None?;
    assert FindInValues(y, 0, "content") == JString("Title");
    assert Find(y, "content") == JString("Title");
    var top := JObject([("x", y)]);
    assert Lookup(top.fields, "content").None?;
    assert FindInValues(top, 0, "content") == JString("Title");

    var b := JObject([("content", JString("x"))]);
    assert Find(b, "content") == JString("x");
    var a := JObject([("content", JNull)]);
    assert Find(a, "content") == JNull;
    var two := JObject([("a", a), ("b", b)]);
    assert Lookup(two.fields, "content").None?;
    assert FindInValues(two, 1, "content") == JString("x");
    assert FindInValues(two, 0, "content") == JString("x");

    var deep := JArray([JObject([("content", JString("deep"))])]);
    var list := JArray([deep, b]);
    assert FindInItems(list, 1, "content") == JString("x");
    assert FindInItems(list, 0, "content") == JString("x");
    var withList := JObject([("a", list)]);
    assert Lookup(withList.fields, "content").None?;
    assert FindInValues(withList, 0, "content") == JString("x");
  }

  // ---------------------------------------------------------------------------
  // `create_integration_item_metadata_object`

  /** The name the page resolves to before the object prefix: the first
      `content` hit under `properties`, else the first in the whole page, else
      "multi_select". */
  function ResolvedName(properties: Json, page: Json): Json
    requires properties.JObject? && page.JObject?
  {
    var inProperties := FirstNonNull(Hits(properties, "content"));
    if inProperties != JNull then inProperties
    else
      var anywhere := FirstNonNull(Hits(page, "content"));
      if anywhere != JNull then anywhere else JString("multi_select")
  }

  /** `parent_id`: None for a workspace parent, otherwise the parent's member
      named by its `type`; a null `type` reads the member named "". */
  function ParentId(page: Json): (r: Result<Json, Error>)
    requires page.JObject?
    ensures r.Ok? ==> Get(page.fields, "parent").JObject? && HasKey(Get(page.fields, "parent").fields, "type")
    ensures (HasKey(page.fields, "parent") && Get(page.fields, "parent").JObject? &&
             Get(Get(page.fields, "parent").fields, "type") == JString("workspace")) ==> r == Ok(JNull)
  {
    var parent :- Index(page, "parent");
    var parentTypeField :- Index(parent, "type");
    var parentType := if parentTypeField == JNull then JString("") else parentTypeField;
    if parentTypeField == JString("workspace") then Ok(JNull) else Subscript(parent, parentType)
  }

  predicate WellFormedParent(page: Json)
    requires page.JObject?
  {
    && HasKey(page.fields, "parent") && Get(page.fields, "parent").JObject?
    && var parent := Get(page.fields, "parent").fields;
    && HasKey(parent, "type")
    && var parentType := Get(parent, "type");
    && (|| parentType == JString("workspace")
        || (parentType == JNull && HasKey(parent, ""))
        || (parentType.JString? && HasKey(parent, parentType.s)))
  }

  /** `parent_id` is None exactly for a workspace parent (or a null member),
      and otherwise `parent[parent.type]`. */
  lemma ParentIdSpec(page: Json)
    requires page.JObject?
    ensures ParentId(page).Ok? <==> WellFormedParent(page)
    ensures ParentId(page).Ok? ==>
      var parent := Get(page.fields, "parent").fields;
      var parentType := Get(parent, "type");
      ParentId(page).value == if parentType == JString("workspace") then JNull
                              else Get(parent, if parentType == JNull then "" else parentType.s)
  {
  }

  /** The item's name: `object + " " + name`, with `found` (the hit under
      `properties`) falling back to a search of the whole page and then to
      "multi_select". */
  function PageName(page: Json, found: Json): (r: Result<Json, Error>)
    requires page.JObject?
    ensures r.Ok? ==> HasKey(page.fields, "object") && Get(page.fields, "object").JString? &&
                      r.value.JString? && Get(page.fields, "object").s + " " <= r.value.s
    ensures found.JString? && HasKey(page.fields, "object") && Get(page.fields, "object").JString? ==>
              r == Ok(JString(Get(page.fields, "object").s + " " + found.s))
  {
    var name := if found != JNull then found else Find(page, "content");
    var name := if name != JNull then name else JString("multi_select");
    var objectField :- Index(page, "object");
    var prefix :- Add(objectField, JString(" "));
    Add(prefix, name)
  }

  /** With `found` the search of `properties`, the name is `object + " " + r`
      for `r` the first `content` hit under `properties`, else in the whole
      page, else "multi_select"; it fails unless `object` and `r` are strings. */
  lemma PageNameSpec(page: Json, properties: Json)
    requires page.JObject? && properties.JObject?
    ensures
      var name := PageName(page, Find(properties, "content"));
      var resolved := ResolvedName(properties, page);
      && (name.Ok? <==> HasKey(page.fields, "object") && Get(page.fields, "object").JString? && resolved.JString?)
      && (name.Ok? ==> name.value == JString(Get(page.fields, "object").s + " " + resolved.s))
  {
    FindIsFirstHit(properties, "content");
    FindIsFirstHit(page, "content");
  }

  /** `create_integration_item_metadata_object`, evaluating the subscripts in
      the source's order. */
  function CreateItem(page: Json): (r: Result<Item, Error>)
    ensures r.Ok? ==> page.JObject? && r.value.name.JString?
    ensures r.Ok? ==> && r.value.id == Get(page.fields, "id")
                      && r.value.itemType == Get(page.fields, "object")
                      && r.value.creationTime == Get(page.fields, "created_time")
                      && r.value.lastModifiedTime == Get(page.fields, "last_edited_time")
  {
    var properties :- Index(page, "properties");
    var found :- RecursiveDictSearch(properties, "content");
    var parentId :- ParentId(page);
    var fullName :- PageName(page, found);
    var id :- Index(page, "id");
    var creationTime :- Index(page, "created_time");
    var lastModifiedTime :- Index(page, "last_edited_time");
    Ok(Item(id, Get(page.fields, "object"), fullName, creationTime, lastModifiedTime, parentId))
  }

  /** A page the normalisation accepts. */
  predicate WellFormedPage(page: Json) {
    && page.JObject?
    && HasKey(page.fields, "properties") && Get(page.fields, "properties").JObject?
    && WellFormedParent(page)
    && HasKey(page.fields, "object") && Get(page.fields, "object").JString?
    && ResolvedName(Get(page.fields, "properties"), page).JString?
    && HasKey(page.fields, "id") && HasKey(page.fields, "created_time") && HasKey(page.fields, "last_edited_time")
  }

  /** Normalisation succeeds exactly on well-formed pages, and then: `id`,
      `created_time` and `last_edited_time` are copied; `type` is `object`;
      the name is `object + " " + ` the resolved name; `parent_id` is None for a
      workspace parent and `parent[parent.type]` otherwise. */
  lemma CreateItemSpec(page: Json)
    ensures CreateItem(page).Ok? <==> WellFormedPage(page)
    ensures CreateItem(page).Ok? ==>
      var fields := page.fields;
      var item := CreateItem(page).value;
      var parent := Get(fields, "parent").fields;
      var parentType := Get(parent, "type");
      && item.id == Get(fields, "id")
      && item.itemType == Get(fields, "object")
      && item.creationTime == Get(fields, "created_time")
      && item.lastModifiedTime == Get(fields, "last_edited_time")
      && item.name == JString(Get(fields, "object").s + " " + ResolvedName(Get(fields, "properties"), page).s)
      && item.parentId == if parentType == JString("workspace") then JNull
                          else Get(parent, if parentType == JNull then "" else parentType.s)
  {
    if page.JObject? && HasKey(page.fields, "properties") && Get(page.fields, "properties").JObject? {
      ParentIdSpec(page);
      PageNameSpec(page, Get(page.fields, "properties"));
    }
  }

  /** A page that has no `content` key anywhere is named `object + " multi_select"`. */
  lemma PageNameFallback(page: Json)
    requires page.JObject? && !Mentions(page, "content")
    ensures CreateItem(page).Ok? ==>
              CreateItem(page).value.name == JString(Get(page.fields, "object").s + " multi_select")
  {
    if CreateItem(page).Ok? {
      CreateItemSpec(page);
      NoContentResolvesToFallback(page);
      FallbackSuffix(Get(page.fields, "object").s);
    }
  }

  lemma FallbackSuffix(objectName: string)
    ensures objectName + " " + "multi_select" == objectName + " multi_select"
  {
    assert " " + "multi_select" == " multi_select";
    assert objectName + " " + "multi_select" == objectName + (" " + "multi_select");
  }

  lemma NoContentResolvesToFallback(page: Json)
    requires page.JObject? && !Mentions(page, "content")
    requires HasKey(page.fields, "properties") && Get(page.fields, "properties").JObject?
    ensures ResolvedName(Get(page.fields, "properties"), page) == JString("multi_select")
  {
    var properties := Get(page.fields, "properties");
    var i :| 0 <= i < |page.fields| && page.fields[i] == ("properties", properties);
    assert !Mentions(properties, "content");
    NoHitsWithoutMention(properties, "content");
    NoHitsWithoutMention(page, "content");
  }

  // ---------------------------------------------------------------------------
  // `get_items`

  /** Everything `get_items` does before its loop: decode the credentials,
      read `access_token` for the header (present or not), and, on status 200,
      take the body's `results`. On any other status the result list is never
      assigned and the return raises `UnboundLocalError`. */
  function Listing(codec: Codec, credentials: string, response: Response): (r: Result<seq<Json>, Error>)
    ensures r.Ok? ==> response.status == 200 && response.body.JObject? && HasKey(response.body.fields, "results")
    ensures response.status != 200 ==> r.Err?
  {
    var decoded :- Loads(codec, credentials);
    var accessToken :- GetOr(decoded, "access_token", JNull);
    if response.status != 200 then Err(UnboundLocalError)
    else
      var results :- Index(response.body, "results");
      Iterate(results)
  }

  /** Decodable dict credentials always reach the request, token or not; a
      non-200 status fails with `UnboundLocalError` and a 200 dict body
      without `results` with `KeyError`. */
  lemma ListingOutcomes(codec: Codec, credentials: string, response: Response, decoded: Json)
    requires codec.loads(credentials) == Some(decoded) && decoded.JObject?
    ensures response.status != 200 ==> Listing(codec, credentials, response) == Err(UnboundLocalError)
    ensures response.status == 200 && response.body.JObject? && !HasKey(response.body.fields, "results") ==>
              Listing(codec, credentials, response) == Err(KeyError("results"))
    ensures response.status == 200 && response.body.JObject? && HasKey(response.body.fields, "results") &&
            Get(response.body.fields, "results").JArray? ==>
              Listing(codec, credentials, response) == Ok(Get(response.body.fields, "results").items)
  {
  }

  /** `get_items`: the listing, then one item per result, in response order. */
  method GetItems(codec: Codec, credentials: string, response: Response) returns (r: Result<seq<Item>, Error>)
    ensures Listing(codec, credentials, response).Err? ==> r == Err(Listing(codec, credentials, response).error)
    ensures Listing(codec, credentials, response).Ok? ==> NormalisedInOrder(Listing(codec, credentials, response).value, r)
  {
    var listing := Listing(codec, credentials, response);
    if listing.Err? {
      return Err(listing.error);
    }
    r := CreateItems(listing.value);
  }

  /** `r` holds one item per result, in result order, when every result
      normalises, and otherwise the error of the first result that does not. */
  ghost predicate NormalisedInOrder(results: seq<Json>, r: Result<seq<Item>, Error>) {
    && (r.Ok? <==> forall i :: 0 <= i < |results| ==> CreateItem(results[i]).Ok?)
    && (r.Ok? ==> |r.value| == |results| &&
                  forall i :: 0 <= i < |results| ==> r.value[i] == CreateItem(results[i]).value)
    && (r.Err? ==> exists i :: 0 <= i < |results| && CreateItem(results[i]) == Err(r.error) &&
                               forall j :: 0 <= j < i ==> CreateItem(results[j]).Ok?)
  }

  /** The loop of `get_items`, appending one normalised item per result. */
  method CreateItems(results: seq<Json>) returns (r: Result<seq<Item>, Error>)
    ensures NormalisedInOrder(results, r)
  {
    var items: seq<Item> := [];
    var i := 0;
    while i < |results|
      invariant 0 <= i <= |results|
      invariant |items| == i
      invariant forall k :: 0 <= k < i ==> CreateItem(results[k]) == Ok(items[k])
    {
      var item := CreateItem(results[i]);
      if item.Err? {
        return Err(item.error);
      }
      ghost var done := items;
      items := items + [item.value];
      forall k | 0 <= k < i + 1 ensures CreateItem(results[k]) == Ok(items[k]) {
        if k < i { assert items[k] == done[k]; }
      }
      i := i + 1;
    }
    return Ok(items);
  }
}
