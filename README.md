# Notion and HubSpot integrations: OAuth state handling and item normalisation

This project models the two provider integrations of the integrations backend:
`services/integrations/notion.py` (the `NotionIntegrationProcessor` class and
its page normaliser) and `services/integrations/hubspot.py` (module-level
functions). Each integration has two parts:

- **OAuth flow.** It runs the authorization-code flow of section 4.1 of RFC 6749,
  using `state` as the CSRF guard of section 10.12, over a Redis key-value store:
  - `authorize` stores a `{state, user_id, org_id}` record under
    `{provider}_state:{org_id}:{user_id}` and returns the authorization URL with
    that record appended;
  - the callback verifies the returned `state` against the saved one, deletes
    it, and stores the token-exchange response under
    `{provider}_credentials:{org_id}:{user_id}`;
  - `get_credentials` reads the credentials once and then deletes them.
- **Item normalisation.** It turns provider listing responses into
  `IntegrationItem`s:
  - Notion pages get a name from a recursive key search and a parent-id rule;
  - HubSpot contacts get a name from the first name joined to the last name.

The model is organised in modules:

- `Wrappers`: `Option` and `Result`.
- `Json`: decoded JSON values. Objects keep insertion order. `JNull` stands for
  both JSON null and Python's `None`. The module also holds the dict lookup and
  an abstract `json.dumps`/`json.loads` pair (`Codec`), with the round-trip law
  `Lawful`.
- `Python`: the Python operations the source applies to decoded values, each
  with the exception it raises:
  - subscript and `.get`;
  - `+`;
  - `str()`;
  - iteration;
  - truthiness;
  - `json.loads`.
- `KeyValueStore`: the Redis store as a class holding a `map` from key to value
  and expiry. Its `Set` and `Delete` methods change the map; `Get` only reads it.
- `Integration`: the `IntegrationItem` record and a listing response.
- `OAuthState`: what both providers share:
  - the key format;
  - the state record;
  - the authorize step;
  - the state verification (the CSRF check);
  - the redeem step.
- `Notion` and `HubSpot`: each provider's operations.
  - The OAuth methods act on the store. Each is proved equal to a specification
    function that returns the new store and the result (`Step`). The properties
    are lemmas about those functions.
  - Notion's `get_items` is a method with the source's loop. It is proved to
    yield one normalised item per result, in order, or the first failing
    result's error (`NormalisedInOrder`).
  - HubSpot's `get_items_hubspot` and both normalisers are functions.

Two things are parameters, not effects:

- The random state token.
- The outcome of a store write (`writeFails`).

Two things are inputs:

- The token-exchange response.
- The listing response.

## Model

| member | source | states |
|---|---|---|
| `KeyValueStore.Read` | services/integrations/notion.py:64 | `get_value_redis` returns a value exactly when the key is present, and it is the stored value |
| `KeyValueStore.Redis.Set` | services/integrations/notion.py:43 | `add_key_value_redis` binds exactly the key to the value and expiry; a write that raises changes nothing and reports failure |
| `KeyValueStore.Redis.Get` | services/integrations/notion.py:103 | the read returns what `Read` gives for the current store |
| `KeyValueStore.Redis.Delete` | services/integrations/notion.py:109 | `delete_key_redis` removes exactly the key (absent keys are fine) |
| `OAuthState.AuthorizeOutcome` | services/integrations/notion.py:31-48 | a failed write raises RuntimeError and leaves the store as it was. A successful one adds exactly the state key, with expiry 600, and leaves every other key unchanged; the returned URL's `state` parameter is exactly the stored value |
| `OAuthState.VerifyState` | services/integrations/notion.py:58-67 | a verified state decodes to a dict, and the saved state for the owner it names is present and non-empty |
| `OAuthState.RedeemOutcome` | services/integrations/notion.py:69-90 | the state key is gone. Unless the write fails, the credentials key holds the serialised exchange response with expiry 600, and the result is Ok exactly when the write succeeds. No other key changes and nothing else is added |
| `OAuthState.StateRecordDistinct` | services/integrations/notion.py:31-35 | the state record repeats no key, so it survives an encode-decode round trip |
| `OAuthState.AuthorizedStateMatches` | services/integrations/notion.py:31-67 | the state `authorize` stores, sent back unchanged, passes the state check for the org and user it was issued to |
| `OAuthState.AuthorizeThenRedeem` | services/integrations/notion.py:31-90 | the state `authorize` stores, sent back unchanged, verifies as its own org and user, and a redemption whose write succeeds leaves the store as before `authorize` less the state key plus the serialised exchange response under the credentials key |
| `OAuthState.StateRecordFields` | services/integrations/notion.py:31-35 | reading the state record back with `.get` yields the token, user id and org id it was built from |
| `OAuthState.VerifyStateAccepts` | services/integrations/notion.py:58-67 | the state check succeeds with an owner exactly when the inbound state decodes to a dict naming that owner and the saved state for that owner is present, non-empty, decodes to a dict and carries the same token |
| `OAuthState.VerifyStateRejects` | services/integrations/hubspot.py:65-68 | an absent saved state, or a saved token different from the inbound one, is rejected with 400 "State does not match." |
| `OAuthState.RedeemedStateRejected` | services/integrations/notion.py:64-83 | once a verified state is redeemed, whether or not the credentials write succeeds, the same state is rejected with 400 "State does not match." |
| `OAuthState.CheckState` | services/integrations/hubspot.py:60-68 | the store-reading state check returns exactly what the verification function gives for the current store, without writing to it |
| `OAuthState.StateKeyIsNotCredentialsKey` | services/integrations/notion.py:83-90 | a state key is never a credentials key, so consuming the state never touches stored credentials |
| `OAuthState.ProviderKeysDisjoint` | services/integrations/hubspot.py:39 | providers whose names start with different letters never share a key |
| `OAuthState.KeyInjective` | services/integrations/notion.py:42 | for org ids without ':', a key determines the org id and the user id |
| `OAuthState.KeyCollision` | services/integrations/notion.py:64 | with ':' in an org id, two different owners map to the same state key |
| `Notion.CallbackOutcome` | services/integrations/notion.py:51-90 | the callback succeeds only without an `error`, with a `state` that verifies, and with a successful write; the store changes only when the state is present and verifies |
| `Notion.GetCredentialsOutcome` | services/integrations/notion.py:102-111 | a pickup that succeeds found the key, deletes exactly it and returns a truthy value; a failing pickup leaves the store unchanged |
| `Notion.Authorize` | services/integrations/notion.py:29-48 | stores the serialised state record under the state key for 600 seconds and returns the URL with that same serialisation as `state`, or raises RuntimeError and stores nothing |
| `Notion.OAuth2Callback` | services/integrations/notion.py:51-99 | the callback's store effect and result are those of the callback specification |
| `Notion.GetCredentials` | services/integrations/notion.py:102-111 | the pickup's store effect and result are those of the pickup specification |
| `OAuthState.AuthorizeStoresState` | services/integrations/notion.py:31-48 | for either provider (this is also `authorize_hubspot` at hubspot.py:26-45): on success exactly the state key is added, expiry 600, its value decodes to the state record and is the URL's `state`; no other key changes; on a failed write nothing changes and no URL is returned |
| `Notion.CallbackRejectsUnverified` | services/integrations/notion.py:52-67 | an `error` parameter (400 with that error), a missing `state` (TypeError from decoding None) or a state that does not verify leaves the store unchanged and raises, whatever the exchange would return |
| `Notion.CallbackGuardsStore` | services/integrations/notion.py:64-90 | the store changes only when there is an owner whose saved state matches |
| `Notion.CallbackRedeems` | services/integrations/notion.py:69-90 | on a match the state key is deleted and exactly the credentials key is added, holding the serialised exchange response with expiry 600; all other keys are unchanged; a failed write leaves only the deletion |
| `Notion.GetCredentialsOutcomes` | services/integrations/notion.py:102-111 | absent or empty credentials raise 400; an undecodable value raises a decode error; a falsy decoded value raises 400 and keeps the key; otherwise the decoded value is returned and the key deleted |
| `Notion.GetCredentialsOnce` | services/integrations/notion.py:103-111 | after a successful pickup, the next pickup raises "No credentials found." and changes nothing |
| `Notion.CallbackOnce` | services/integrations/notion.py:51-90 | after a callback whose state verified, replaying the same request raises 400 "State does not match." and leaves the store as it is, whatever the second exchange and write |
| `Notion.AuthorizeCallbackPickup` | services/integrations/notion.py:29-111 | for a truthy exchange response that repeats no key (as `json.loads` yields): authorize, a callback with the returned `state`, then two pickups. The first pickup returns the exchange response, the second raises 400, and both keys are gone |
| `Notion.Find` | services/integrations/notion.py:136-152 | a key at the current level gives its value, even a null one; a key no reachable dict holds gives None |
| `Notion.FindInValues` | services/integrations/notion.py:141-152 | the loop over dict values gives None when no reachable dict holds the key |
| `Notion.FindInValue` | services/integrations/notion.py:142-151 | one dict value gives None when no reachable dict under it holds the key |
| `Notion.FindInItems` | services/integrations/notion.py:146-151 | the loop over a list's dict elements gives None when none of them reaches the key |
| `Notion.RecursiveDictSearch` | services/integrations/notion.py:138-141 | the search succeeds exactly on dicts; any other argument raises at the `in` test, at the subscript on line 139 (a list or string that contains the key), or at `.values()` |
| `Notion.FindIsFirstHit` | services/integrations/notion.py:136-152 | the search returns the first non-null hit in depth-first order, where a dict holding the key is a hit and is not searched further |
| `Notion.FindInValuesIsFirstHit` | services/integrations/notion.py:141-152 | the loop over dict values returns the first non-null hit among the remaining values |
| `Notion.FindInValueIsFirstHit` | services/integrations/notion.py:142-151 | a dict value is searched, a list value has its dict elements searched, and anything else contributes no hit |
| `Notion.FindInItemsIsFirstHit` | services/integrations/notion.py:146-151 | the loop over a list returns the first non-null hit among its remaining dict elements; nested lists and scalars are skipped |
| `Notion.NoHitsWithoutMention` | services/integrations/notion.py:136-152 | a key held by no reachable dict produces no hit |
| `Notion.NoHitsInValuesWithoutMention` | services/integrations/notion.py:141-152 | the same, for the remaining values of a dict |
| `Notion.NoHitsInItemsWithoutMention` | services/integrations/notion.py:146-152 | the same, for the remaining elements of a list |
| `Notion.SearchOutcomes` | services/integrations/notion.py:136-152 | a key at the current level returns its value even when null; otherwise the first non-null hit below; a key mentioned nowhere gives None |
| `Notion.SearchExamples` | services/integrations/notion.py:136-152 | a nested hit is found; a null at the top level stops the search; a child result that is null is skipped; a list inside a list is not searched |
| `Notion.ParentId` | services/integrations/notion.py:160-168 | success implies `parent` is a dict with a `type`; a dict parent of type "workspace" gives None |
| `Notion.PageName` | services/integrations/notion.py:170-172 | a name is always a string that starts with `object + " "`; a string hit under `properties` gives `object + " " + hit` |
| `Notion.CreateItem` | services/integrations/notion.py:155-183 | a normalised page is a dict; its item copies `id`, `created_time` and `last_edited_time`, takes `type` from `object`, and has a string name |
| `Notion.ParentIdSpec` | services/integrations/notion.py:160-168 | `parent_id` is None for a workspace parent and `parent[parent.type]` otherwise (a null type reads the member named ""). It succeeds exactly when all of these hold: `parent` is present and a dict; it has a `type`; the type is "workspace", or null with a member named "", or a string naming a member. Otherwise it fails: a non-dict `parent`, or a list or dict type, raises TypeError; a number or bool type, or a missing member, raises KeyError |
| `Notion.PageNameSpec` | services/integrations/notion.py:159-172 | the name is `object + " " + r`, where `r` is the first content hit under `properties`, else in the whole page, else "multi_select"; it fails unless both parts are strings |
| `Notion.CreateItemSpec` | services/integrations/notion.py:155-183 | normalisation succeeds exactly on well-formed pages; it then copies `id`, `created_time` and `last_edited_time`, takes `type` from `object`, and sets the name and parent id above |
| `Notion.PageNameFallback` | services/integrations/notion.py:170-172 | a normalised page with no `content` key anywhere is named `object + " multi_select"` |
| `Notion.Listing` | services/integrations/notion.py:114-126 | the listing succeeds only on status 200 with a dict body that has `results`; any other status fails |
| `Notion.ListingOutcomes` | services/integrations/notion.py:114-133 | credentials that decode to a dict reach the request whether or not they hold a token; a non-200 status fails with UnboundLocalError; a 200 dict body without `results` raises KeyError; otherwise the results list is iterated |
| `Notion.GetItems` | services/integrations/notion.py:113-133 | the listing's error, or one normalised item per result in response order, or the error of the first failing result |
| `Notion.CreateItems` | services/integrations/notion.py:127-131 | the append loop yields one item per result in order when all normalise, else the error of the first failing result |
| `HubSpot.CallbackOutcome` | services/integrations/hubspot.py:48-98 | the callback succeeds only without an `error`, with a non-empty `state` that verifies, and with a successful write; the store changes only when the state is non-empty and verifies |
| `HubSpot.GetCredentialsOutcome` | services/integrations/hubspot.py:111-129 | a pickup that succeeds found the key and deletes exactly it; a failing pickup leaves the store unchanged |
| `HubSpot.Authorize` | services/integrations/hubspot.py:26-45 | stores the serialised state record under the state key for 600 seconds and returns the URL with it as `state`, or raises RuntimeError and stores nothing |
| `HubSpot.OAuth2Callback` | services/integrations/hubspot.py:48-108 | the callback's store effect and result are those of the callback specification |
| `HubSpot.GetCredentials` | services/integrations/hubspot.py:111-129 | the pickup's store effect and result are those of the pickup specification |
| `HubSpot.CallbackRejectsUnverified` | services/integrations/hubspot.py:50-68 | an `error` parameter, a missing or empty `state` ("State parameter missing.") or a state that does not verify raises with the store unchanged |
| `HubSpot.CallbackGuardsStore` | services/integrations/hubspot.py:57-98 | the store changes only when there is an owner whose saved state matches |
| `HubSpot.CallbackRedeems` | services/integrations/hubspot.py:70-98 | on a match the state key is deleted and exactly the credentials key is added, with the serialised exchange response and expiry 600; a failed write raises RuntimeError after the deletion |
| `HubSpot.GetCredentialsOutcomes` | services/integrations/hubspot.py:111-129 | absent or empty credentials raise 400 with the store unchanged; an undecodable value raises 500 and keeps the key; otherwise the decoded value is returned and the key deleted |
| `HubSpot.GetCredentialsOnce` | services/integrations/hubspot.py:113-129 | after a successful pickup the next one raises 400 and changes nothing |
| `HubSpot.CallbackOnce` | services/integrations/hubspot.py:48-98 | after a callback whose state verified, replaying the same request raises 400 "State does not match." and leaves the store as it is, whatever the second exchange and write |
| `HubSpot.AuthorizeCallbackPickup` | services/integrations/hubspot.py:26-129 | for an exchange response that repeats no key (as `json.loads` yields), the whole flow returns the exchange response once; the second pickup raises 400 and both keys are gone |
| `HubSpot.ProvidersShareNoKey` | services/integrations/hubspot.py:39 | no HubSpot key equals any Notion key |
| `HubSpot.CreateItem` | services/integrations/hubspot.py:132-144 | a normalised contact is a dict; its item copies `id` and has no type and no parent |
| `HubSpot.CreateItemSpec` | services/integrations/hubspot.py:132-144 | a well-formed contact yields its id, `firstname + lastname` with no separator, `createdate` and `lastmodifieddate`, with no type and no parent |
| `HubSpot.CreateItemErrors` | services/integrations/hubspot.py:134-144 | a non-dict contact raises TypeError; a missing `properties` raises KeyError("properties"), a missing `firstname` KeyError("firstname"); with a string first name, a missing `lastname` raises KeyError("lastname") and a null one TypeError; two names that are not both strings, both lists or both numbers raise TypeError; success implies an `id` |
| `HubSpot.CreateItemJoinsNames` | services/integrations/hubspot.py:132-144 | a contact with first name A, last name B and id 5 yields id 5 and name AB, and so for every choice of strings |
| `HubSpot.CreateItems` | services/integrations/hubspot.py:170-172 | the comprehension yields one item per result in order when all normalise, else the error of the first failing result |
| `HubSpot.GetItems` | services/integrations/hubspot.py:147-174 | items are returned only for a 200 response and for credentials that decode to a dict with a truthy `access_token`; on success, a list of results gives one item per result |
| `HubSpot.GetItemsOutcomes` | services/integrations/hubspot.py:147-172 | a missing or falsy token raises ValueError for every response, so no request matters; a non-200 status raises with that status; a 200 dict body without `results` yields no items; a list of results, each normalising, gives one item per result |

## Left out

- Outbound HTTP calls are left out: the token exchange and the Notion search and HubSpot contacts requests. The exchange response and the listing status and body are inputs. Decoding a response body (`response.json()`) is assumed to succeed.
- `asyncio.gather` of the exchange and the state-key deletion is read sequentially: the deletion comes first, then the credentials write.
- `redis_client.py` is not part of this model. The store is a map. Expiry is recorded but never enforced, and no wall clock is modelled. A write that raises writes nothing.
- Reads (`get_value_redis`, at services/integrations/notion.py:64 and 103 and services/integrations/hubspot.py:65 and 116) never raise in this model.
- Deletions (`delete_key_redis`, at services/integrations/notion.py:83 and 109 and services/integrations/hubspot.py:86 and 127) never raise in this model.
- Only writes can fail (the `writeFails` parameter).
- `secrets.token_urlsafe(32)` is a parameter, the token.
- The flow lemmas (`AuthorizeCallbackPickup`, `AuthorizeThenRedeem`) assume the provider returns `state` exactly as the URL carried it. The source appends the serialised record to the URL without URL-encoding it (services/integrations/notion.py:48, services/integrations/hubspot.py:45), so an id containing `&` or `#` would not come back intact; URL parsing is not modelled.
- `json.dumps`/`json.loads` are an abstract pair of functions. No serialiser is verified. Three things are assumed, and only where a lemma says `Lawful`:
  - decoding undoes encoding for values whose objects repeat no key (`DistinctKeys`);
  - decoded values repeat no key, because `json.loads` keeps the last of repeated keys;
  - an encoding is never empty.
- Numbers are integers: floats, and Python's `1 == True` and `1 == 1.0`, are not modelled. Decoded values are compared structurally, so two dicts with the same members in a different order count as different.
- `Python.Repr` renders strings with Python's choice of quotes, but it does not escape characters inside them.
- `Notion.Authorize`: the RuntimeError detail omits the text of the underlying exception, because that text comes from the store client, which is not modelled.
- `HubSpot.Authorize`: the RuntimeError detail omits the text of the underlying exception, for the same reason.
- `HubSpot.OAuth2Callback`: the RuntimeError detail omits the text of the underlying exception, for the same reason.
- The client ids, secrets, redirect URIs and authorization URLs from `core/config.py` are left out. The authorization URL is a parameter. Basic-auth header construction is omitted.
- The HTML close-window page the callbacks return is left out; a successful callback returns `()`.
- The `print` in `get_items_hubspot` is left out.
- The FastAPI routes in `api/` are left out, as is the provider registry in `services/integrations/__init__.py`. So is the abstract `IntegrationProcessor` interface in `utils/integrations.py`, which has no behaviour.
- `HubSpotIntegrationProcessor` is imported by the registry but not defined in `hubspot.py`. The module-level functions are modelled as written.
- `schemas/integration_item.py` is not part of this model. An `IntegrationItem` field the source does not pass is `None`, and field validation is not modelled.
- Two concurrent pickups of the same credentials are not modelled; the store operations are sequential.
