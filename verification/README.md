# OpenAuth: verified models

Dafny models of the parts of the OpenAuth authorization server whose correctness
spans several functions, stores or requests, with proofs of what they promise.

- **Authorization and token lifecycle** (`OAuth`, `OAuthGates`, `Lifecycle`,
  `LifecycleInvariant`, `LifecycleTheorems`, `LifecycleFields`, `LifecycleDeletes`, `Refresh`,
  `Handlers`). `/authorize`, callbacks, method
  routes, `/token` and `/revoke` are one step machine. Every store call is one step; a
  request between two calls is a handler that remembers what it read or consumed, so any
  number of requests interleave freely. The SQL consume is three separate steps beside the
  in-memory single step, and the DynamoDB revocation is a query and one step per row.
  Hosts' hooks, signing and audit may fail at any point (a request can abort between any two steps). Each handler is also a method over the in-memory stores,
  proved to be its steps of the machine when nothing interferes; it takes one clock reading
  for all its store calls, where the machine may let time pass between any two. What each
  endpoint accepts, writes and answers is stated field by field beside that.
- **Stores** (`TokenStore`, `StoreLaws`, `MemoryTokenStore`, `SqlTokenStore`, `DynamoTokenStore`,
  `TokenHistories`, `FlowStore`, `SessionStores`, `FlowRaces`). The in-memory stores are
  classes proved against functions on maps; the SQL and DynamoDB stores are classes over
  tables and items whose operations are told by what they do to the tokens they hold, in
  terms of the same functions; flow updates that read a whole
  record and write it back later run against consumes in every order.
- **SCIM** (`Json`, `Text`, `ScimFilter`, `ScimFilterTheorems`,
  `ScimFilterMeanings`, `ScimUser`, `ScimPatch`,
  `ScimDraft`, `ScimPatchTheorems`, `ScimPaths`, `ScimShapes`, `ScimMeanings`, `ScimLists`, `ScimIdempotence`,
  `ScimRepeats`, `ScimRepeatsIff`, `ScimGroup`, `ScimGroupDraft`, `ScimGroupTheorems`,
  `ScimGroupMeanings`). The filter parser's three scanners
  are loops proved against descriptions of positions. A PATCH operation compiles, without
  looking at the record, to a list of edits; the draft object is proved to make those edits. What
  a filter text or an operation means is stated in the words and keys of the requests.
- **Small cores** (`Subject`, `SubjectTheorems`, `SubjectMeanings`, `Dpop`, `MethodCache`,
  `MethodCacheTheorems`). Canonical subject seeds, the DPoP replay window, and the method
  cache with the requests that fill it and the configuration store that empties it.

`dafny verify dfyconfig.toml` checks the whole project.

## Where the code does less than its comments promise

For each of these the exact condition is proved, over all inputs.

- A DPoP proof is meant to be accepted once while it is fresh. The freshness check and the
  record read the clock separately. A proof is accepted at most once exactly when the time to
  live covers the window, both end seconds included, and the lag between the two readings
  (`Dpop.SingleUseIff`). The default falls a second short of the window alone: a second acceptance is
  possible, a third not unless the lag exceeds 119 seconds (`Dpop.DefaultsAllowNoThirdIff`).
- Two filter terms joined by `and` are misread exactly when the first value ends in a
  backslash (`ScimFilterTheorems.TwoTermsRoundTripIff`), and the parser throws exactly on
  filters of nothing but `and`s (`ScimFilterTheorems.ThrowsIff`).
- A group delta means the same to hosts that apply its two lists in either order exactly when
  no id is both added and removed (`ScimGroupTheorems.IncrementsMeanOperationsIff`).
- Reuse detection empties a family for good exactly when no mint of it is in flight
  (`LifecycleTheorems.ReuseRevocation`); where it deletes row by row, exactly when none of its
  rows can be claimed at the query either (`LifecycleDeletes.RevocationByRows`).
- The branch commented as unreachable is out of reach exactly for tokens that were issued
  before the claim (`LifecycleTheorems.MissIsExplainedIff`); refresh requests present no other
  (`LifecycleTheorems.RotationsPresentIssuedTokens`), callers of the port may.
- A configuration put leaves no stale method behind exactly when each request of its tenant
  that is under way, building a method or still holding a copy of the configuration it read
  before, would store what the new configuration gives (`MethodCacheTheorems.PutIsSafeIff`,
  and `MethodCacheTheorems.StaysTransparentIff` for any state).

## Sending a PATCH twice

No comment promises that a PATCH with removals can be repeated. Removing a type from a list and
adding it again cannot (`ScimIdempotence.RemovalsAreNot`); bodies without `remove` can
(`ScimIdempotence.WithoutRemovalsSeparable`). The exact condition, for every body, is
`ScimRepeatsIff.PatchIsIdempotentIff`. It has two sources: an upsert may adopt the one untyped
entry of a list, with its primary mark, the first time only; and a type that is removed and
written again moves to the end of the list each time.

## Assumptions

- Flow ids, codes, refresh tokens and families are drawn fresh: a step that would draw a used
  id is not taken. The theorems that need this say what happens otherwise.
- SHA-256 is a function parameter without laws, except that derived ids use the URL-safe
  base64 alphabet. Code encryption is an invertible wrapper opened by whoever holds its key id.
- One statement of a store is atomic and strongly consistent, except that a read of a tenant's
  configuration may return any copy of it. Clock readings are parameters, and
  monotonicity is assumed only where stated. DPoP verification takes the two readings the code
  takes; a handler method takes one for all its store calls, where the code reads the clock at each.
- Method factories are deterministic. Tenant ids are NUL-free where stated.

## Model

| member | source | states |
|---|---|---|
| OAuthGates.FirstClientFound | packages/openauth/src/domain/token.ts:167-175 | A client id names the first client registered under it, and none exactly when none is. |
| OAuthGates.AuthorizeGateIff | packages/openauth/src/domain/authorize.ts:144-200 | /authorize accepts a request if and only if it names a registered client at one of its redirect URIs, asks for a code the client may have and for scopes it is registered for, and brings an S256 challenge where the client has to: a public one always, a confidential one if registered so. |
| OAuthGates.AuthorizeRefusals | packages/openauth/src/domain/authorize.ts:144-200 | Which refusal, for each check that is the first to fail. |
| OAuthGates.RefreshGateIff | packages/openauth/src/domain/refresh.ts:95-159 | A refresh token gets as far as the consume if and only if its own client presents it (a confidential client with its secret, a public one without), with the key it is bound to, for a subset of the granted scopes. |
| OAuthGates.RefreshRefusals | packages/openauth/src/domain/refresh.ts:95-159 | Which refusal a refresh gets: a presenter that is not the client before a wrong key before a scope outside the grant. |
| OAuthGates.RevokeGateIff | packages/openauth/src/domain/revoke.ts:63-116 | Revocation goes on to consume if and only if the token's own client presents it; a confidential client must name itself with a non-empty id. |
| OAuthGates.RevokeRefusalIff | packages/openauth/src/domain/revoke.ts:63-116 | Revocation is refused, and not merely ignored, if and only if the client of the token is known and fails to authenticate, in its own name or in none. |
| OAuthGates.ExchangeIff | packages/openauth/src/domain/token.ts:161-222 | The code grant accepts a consumed code if and only if the client it was issued to presents it at its redirect URI, with a DPoP key where the client requires one and the verifier of its challenge. |
| OAuthGates.ExchangeRefusals | packages/openauth/src/domain/token.ts:161-222 | Which refusal the code grant gives. |
| OAuthGates.WordsAreScopes | packages/openauth/src/domain/refresh.ts:70-83 | Splitting a scope string never yields an empty scope or one with a space. |
| OAuthGates.ScopesRoundTrip | packages/openauth/src/domain/refresh.ts:70-83 | Any list of scopes written with spaces is read back as itself. |
| OAuthGates.WordsSplit | packages/openauth/src/domain/refresh.ts:70-83 | A space separates, whatever is on its two sides. |
| OAuthGates.RequestedExactly | packages/openauth/src/domain/refresh.ts:194-196 | No scope asked for keeps the granted ones; a list of scopes asked for is the list that is given, in its order. |
| TokenStore.SplitIsAtomic | packages/openauth/src/adapters/postgres/token-store.ts:124-202 | Claim, lookup and family delete, run without interference, are the one indivisible consume of the reference store. |
| StoreLaws.CodeRoundTrip | packages/openauth/src/adapters/memory/token-store.ts:53-83 | A code is saved for more than nothing and at most a minute, reads back as it was saved until then, and is gone once read or found expired. |
| StoreLaws.CodeOnce | packages/openauth/src/adapters/memory/token-store.ts:69-83 | Whatever became of the first request for a code, the second finds nothing. |
| StoreLaws.RefreshRoundTrip | packages/openauth/src/adapters/memory/token-store.ts:85-142 | A token reads back as saved, and is consumed so, until its payload expires; consuming marks it with the time and nothing else. |
| StoreLaws.Replay | packages/openauth/src/adapters/memory/token-store.ts:93-131 | A consumed token that comes again inside the window takes its family down and no other token, and names family, tenant and subject; after the window it is refused and nothing changes. |
| StoreLaws.PeekSeesConsumed | packages/openauth/src/adapters/memory/token-store.ts:133-142 | A consumed token answers a peek as before, until it expires. |
| StoreLaws.Revocations | packages/openauth/src/adapters/memory/token-store.ts:144-166 | Revoking a family, or a subject of a tenant, removes exactly those rows. |
| StoreLaws.JtiRoundTrip | packages/openauth/src/adapters/memory/token-store.ts:168-180 | An identifier is taken while its record lasts and free again from then on; other live records stay. |
| StoreLaws.FlowRoundTrip | packages/openauth/src/adapters/memory/session-store.ts:51-110 | A flow is saved for more than nothing and reads back as saved, or is consumed so, until its time is over; reading leaves it, consuming does not. |
| StoreLaws.UpdateThenConsume | packages/openauth/src/adapters/memory/session-store.ts:68-110 | An update of a live flow changes its method state and nothing else, its lifetime included; of any other it is refused. |
| StoreLaws.FlowOnce | packages/openauth/src/adapters/memory/session-store.ts:96-110 | After a consume nothing reads or consumes the flow again. |
| MemoryTokens.MemoryTokenStore.SaveCode | packages/openauth/src/adapters/memory/token-store.ts:53-67 | Saving a code: answer and whole new state are those of the reference semantics. |
| MemoryTokens.MemoryTokenStore.ConsumeCode | packages/openauth/src/adapters/memory/token-store.ts:69-83 | Consuming a code (delete first, then check expiry): answer and whole new state are those of the reference semantics. |
| MemoryTokens.MemoryTokenStore.SaveRefresh | packages/openauth/src/adapters/memory/token-store.ts:85-91 | Saving a refresh token: answer and whole new state are those of the reference semantics. |
| MemoryTokens.MemoryTokenStore.PeekRefresh | packages/openauth/src/adapters/memory/token-store.ts:133-142 | Peeking at a refresh token without using it up: answer and whole new state are those of the reference semantics. |
| MemoryTokens.MemoryTokenStore.ConsumeRefresh | packages/openauth/src/adapters/memory/token-store.ts:93-131 | Consuming a refresh token, replay inside the window taking the family down: answer and whole new state are those of the reference semantics. |
| MemoryTokens.MemoryTokenStore.RevokeFamily | packages/openauth/src/adapters/memory/token-store.ts:144-151 | The deletion loop removes exactly the family's tokens: answer and whole new state are those of the reference semantics. |
| MemoryTokens.MemoryTokenStore.RevokeBySubject | packages/openauth/src/adapters/memory/token-store.ts:153-166 | The deletion loop removes exactly the tenant and subject's tokens: answer and whole new state are those of the reference semantics. |
| MemoryTokens.MemoryTokenStore.RecordDpopJti | packages/openauth/src/adapters/memory/token-store.ts:168-180 | The sweep removes exactly the expired identifiers, then the identifier is recorded or refused: answer and whole new state are those of the reference semantics. |
| SqlTokens.SqlTokenStore.SaveCode | packages/openauth/src/adapters/postgres/token-store.ts:50-72 | Saving a code is the reference save, except that INSERT refuses a code in use and leaves the table as it was. |
| SqlTokens.SqlTokenStore.ConsumeCode | packages/openauth/src/adapters/postgres/token-store.ts:74-97 | DELETE RETURNING and then the expiry check are the reference consume of a code. |
| SqlTokens.SqlTokenStore.SaveRefresh | packages/openauth/src/adapters/postgres/token-store.ts:99-122 | On a fresh key the INSERT with its five columns is the reference save; a key in use is refused and nothing changes; the columns keep agreeing with the payloads. |
| SqlTokens.SqlTokenStore.PeekRefresh | packages/openauth/src/adapters/postgres/token-store.ts:204-227 | A SELECT that reads the expiry column answers as the reference peek reads the payload. |
| SqlTokens.SqlTokenStore.ConsumeRefresh | packages/openauth/src/adapters/postgres/token-store.ts:124-202 | Claim, lookup and family delete on columns are the one step of the reference on payloads; the columns keep agreeing and the unexplained miss is dead when nothing interferes. |
| SqlTokens.SqlTokenStore.RevokeFamily | packages/openauth/src/adapters/postgres/token-store.ts:229-239 | DELETE by the family column takes away the tokens whose payload names the family, and no other. |
| SqlTokens.SqlTokenStore.RevokeBySubject | packages/openauth/src/adapters/postgres/token-store.ts:241-255 | DELETE by the tenant and subject columns takes away the tokens whose payload names both, and no other. |
| SqlTokens.InsertRefines | packages/openauth/src/adapters/d1/token-store.ts:90-115 | The inserted row is the reference save, and its columns agree with its payload. |
| SqlTokens.ClaimRefines | packages/openauth/src/adapters/d1/token-store.ts:117-193 | The claim matches a row by its columns exactly when the reference could consume the token, and marks it as the reference does. |
| SqlTokens.DeletesRefine | packages/openauth/src/adapters/postgres/token-store.ts:229-255 | Deleting by columns is deleting by payload. |
| DynamoTokens.DynamoTokenStore.SaveCode | packages/openauth/src/adapters/dynamo/token-store.ts:51-80 | A put of a code is the reference save, overwrites included. |
| DynamoTokens.DynamoTokenStore.ConsumeCode | packages/openauth/src/adapters/dynamo/token-store.ts:82-98 | The delete that returns the old item is the reference consume of a code. |
| DynamoTokens.DynamoTokenStore.SaveRefresh | packages/openauth/src/adapters/dynamo/token-store.ts:100-122 | A put of the whole item is the reference save, overwrites included; the attributes keep agreeing with the payload. |
| DynamoTokens.DynamoTokenStore.PeekRefresh | packages/openauth/src/adapters/dynamo/token-store.ts:180-197 | A get that reads the expiry attribute answers as the reference peek. |
| DynamoTokens.DynamoTokenStore.ConsumeRefresh | packages/openauth/src/adapters/dynamo/token-store.ts:124-178 | Conditional claim, lookup and item deletes are the one step of the reference, when nothing interferes. |
| DynamoTokens.DynamoTokenStore.RevokeFamily | packages/openauth/src/adapters/dynamo/token-store.ts:199-219 | The items queried by family, deleted one by one, are the tokens of the family. |
| DynamoTokens.DynamoTokenStore.RevokeBySubject | packages/openauth/src/adapters/dynamo/token-store.ts:221-242 | Exactly the tokens whose tenant and subject give the same key are taken away. |
| DynamoTokens.DynamoTokenStore.DeleteEach | packages/openauth/src/adapters/dynamo/token-store.ts:209-217 | The item-by-item deletion loop removes exactly the queried items. |
| DynamoTokens.PutRefines | packages/openauth/src/adapters/dynamo/token-store.ts:100-122 | The item put is the reference save, and its attributes agree with its payload. |
| DynamoTokens.ClaimRefines | packages/openauth/src/adapters/dynamo/token-store.ts:130-141 | The condition on the attributes holds exactly when the reference could consume the token, and the update marks it as the reference does. |
| DynamoTokens.DeletesRefine | packages/openauth/src/adapters/dynamo/token-store.ts:199-242 | Deleting the items of a query is deleting by payload: by family, and by subject key. |
| DynamoTokens.KeyDetermines | packages/openauth/src/adapters/dynamo/token-store.ts:111 | A tenant#subject key with #-free subjects has one reading. |
| DynamoTokens.KeyRefines | packages/openauth/src/adapters/dynamo/token-store.ts:221-242 | Among #-free subjects the string key selects exactly the tokens tenant and subject select. |
| DynamoTokens.KeyIsExactIff | packages/openauth/src/adapters/dynamo/token-store.ts:221-242 | The key is exact over all tokens with #-free subjects if and only if the queried subject is #-free. |
| TokenHistories.ServesOn | packages/openauth/src/adapters/memory/token-store.ts:53-166 | A call that saves under no key in use extends a history that memory has served. |
| TokenHistories.ServeSql | packages/openauth/src/adapters/postgres/token-store.ts:50-255 | One call on the SQL store is answered as memory answers it if and only if it does not save under a key in use, and then leaves the same tokens. |
| TokenHistories.ServeAllSql | packages/openauth/src/adapters/postgres/token-store.ts:50-255 | Memory, Postgres and D1 answer a sequential history alike if and only if it never saves under a key in use, and then end with the same codes and tokens, columns still agreeing. |
| TokenHistories.ServeDynamo | packages/openauth/src/adapters/dynamo/token-store.ts:51-242 | With #-free subjects one call on the DynamoDB store has the answer and the new tokens of memory. |
| TokenHistories.ServeAllDynamo | packages/openauth/src/adapters/dynamo/token-store.ts:51-242 | With #-free subjects DynamoDB answers every sequential history as memory does, overwrites included, and ends with the same codes and tokens. |
| SessionStores.MemorySessionStore.SaveFlow | packages/openauth/src/adapters/memory/session-store.ts:51-66 | Saving a flow: answer and new state are those of the reference semantics. |
| SessionStores.MemorySessionStore.UpdateFlowMethodState | packages/openauth/src/adapters/memory/session-store.ts:68-82 | Replacing the method state, an expired flow being deleted: answer and new state are those of the reference semantics. |
| SessionStores.MemorySessionStore.ReadFlow | packages/openauth/src/adapters/memory/session-store.ts:84-94 | Reading a flow: answer and new state are those of the reference semantics. |
| SessionStores.MemorySessionStore.ConsumeFlow | packages/openauth/src/adapters/memory/session-store.ts:96-110 | Delete on read: answer and new state are those of the reference semantics. |
| SessionStores.D1SessionStore.SaveFlow | packages/openauth/src/adapters/d1/session-store.ts:32-54 | INSERT, which fails on a taken id. |
| SessionStores.D1SessionStore.UpdateFlowMethodState | packages/openauth/src/adapters/d1/session-store.ts:56-113 | Read, then conditional write of the whole record: the reference update, but an expired row stays. |
| SessionStores.D1SessionStore.ConsumeFlow | packages/openauth/src/adapters/d1/session-store.ts:142-163 | DELETE RETURNING. |
| FlowRaces.StepKeeps | packages/openauth/src/adapters/d1/session-store.ts:56-163 | Every step of every store keeps: rows are saved flows with the latest state, consumed flows have no row, pending writes carry a saved record. |
| FlowRaces.StoredIsSavedWithLatest | packages/openauth/src/adapters/dynamo/session-store.ts:60-153 | In every interleaving with fresh ids a stored flow is the saved one with only its method state replaced, by the latest successful update. |
| FlowRaces.ConsumedStaysGone | packages/openauth/src/adapters/dynamo/session-store.ts:84-99 | Whatever updates were under way, a consumed flow never reappears and no later consume finds it. |
| FlowRaces.WriteIsAtomicUpdate | packages/openauth/src/adapters/d1/session-store.ts:90-112 | The delayed write of D1 and of DynamoDB takes effect as one indivisible update on the clock reading the request began with. |
| FlowRaces.ReusedIdLosesTheNewFlow | packages/openauth/src/adapters/dynamo/session-store.ts:82-99 | With a reused flow id it does not: an old update overwrites the new record. |
| LifecycleFields.AuthorizeRecords | packages/openauth/src/domain/authorize.ts:218-247 | An /authorize step stores, field by field, the tenant, method, callback, nonces, client, redirect URI, scopes, audience, claims request and challenge of its request. |
| LifecycleFields.FlowRecords | packages/openauth/src/domain/authorize.ts:218-247 | In every run a flow on record says so of the one /authorize that saved it. |
| LifecycleFields.PathsAgreeIff | packages/openauth/src/domain/callback.ts:478-480 | Two paths agree if and only if one is the other with slashes after it. |
| LifecycleFields.CallbackTakes | packages/openauth/src/domain/callback.ts:143-205 | A callback goes on if and only if the flow is live and its tenant, nonce, host and path (up to final slashes) are those of the callback; the flow is gone either way. |
| LifecycleFields.RoutePeeks | packages/openauth/src/domain/method-route.ts:105-130 | A method route goes on if and only if the flow is live and of its tenant and method. |
| LifecycleFields.TakeTakes | packages/openauth/src/domain/authorize.ts:380-390 | A flow is taken if and only if it is live, and then it is the stored record that is held. |
| LifecycleFields.CallbackMatchesAuthorize | packages/openauth/src/domain/callback.ts:154-205 | In every run a callback that goes on carries the tenant, nonce, host and path of the one /authorize of its flow, and holds that record. |
| LifecycleFields.RouteMatchesAuthorize | packages/openauth/src/domain/method-route.ts:105-130 | In every run a method route that goes on names the tenant and method of the one /authorize of its flow. |
| LifecycleFields.CodeSays | packages/openauth/src/domain/callback.ts:239-268 | In every run a code that came from a flow says, field by field, what that /authorize asked for, who signed in at the step that issued it, and when, in whole seconds. |
| LifecycleFields.RedeemTakes | packages/openauth/src/domain/token.ts:139-160 | A code is redeemed if and only if it is there, in time and sealed under a key at hand; and it is gone. |
| LifecycleFields.GrantBinds | packages/openauth/src/domain/token.ts:258-270 | In every run a family opened by an exchange is bound to the DPoP key of that exchange and says for the rest what its code says. |
| LifecycleFields.RowStandsFor | packages/openauth/src/domain/refresh.ts:207-231 | So does the row of every refresh token, rotated or not: tenant, client, method, audience, claims request and sign-in time are those of one /authorize and one code, the key is that of the exchange, and the scopes are among those asked for. |
| LifecycleFields.BoundToItsKey | packages/openauth/src/domain/refresh.ts:134-149 | A token of a family bound to a key is refused to every refresh with another key, or none, in every reachable state. |
| LifecycleFields.RotationMints | packages/openauth/src/domain/refresh.ts:183-231 | A token used up for a rotation, in one step or three, leaves a mint under way for the same family and line, with the granted scopes if none were asked for, else exactly those asked for, and none if one of them was not granted. |
| LifecycleFields.MintWrites | packages/openauth/src/domain/token.ts:430-455 | A mint writes one row, with its family, line and scopes and the subject and times of the step. |
| LifecycleInvariant.StepInv | packages/openauth/src/domain/authorize.ts:136-432 | Every step of every request, and every statement of the split stores, keeps: each flow, code, token and family has at most one holder, and every record is faithful to the authorization or grant it descends from. |
| LifecycleTheorems.ExecutionInv | packages/openauth/src/domain/token.ts:136-270 | The invariant holds in every reachable state of every interleaving. |
| LifecycleTheorems.OneCreditPerFamily | packages/openauth/src/domain/refresh.ts:161-230 | In every reachable state a family has at most one unconsumed stored token or in-flight mint, before, during and after reuse detection. |
| LifecycleTheorems.OneOutcome | packages/openauth/src/domain/callback.ts:143-275 | A flow becomes at most one code, a code at most one family, a token at most one successor, and then nothing of it is left in store or in flight. |
| LifecycleTheorems.AuthorizedOnce | packages/openauth/src/domain/authorize.ts:218-247 | A flow on record was saved by exactly one earlier /authorize step. |
| LifecycleTheorems.GrantMatches | packages/openauth/src/domain/token.ts:167-222 | An exchange of a code that came from a flow agrees with that flow's request on client, redirect URI, scopes and challenge. |
| LifecycleTheorems.ExchangeMatchesOneAuthorize | packages/openauth/src/domain/authorize.ts:144-247 | Every family opened by exchange matches exactly one earlier /authorize (client, redirect URI, scopes within the registered ones, S256 verifier for public clients), and no two families match the same one. |
| LifecycleTheorems.FamiliesKeepTheirLine | packages/openauth/src/domain/refresh.ts:204-231 | Over every run all rows of a family carry the line its grant opened with, and scopes only shrink along rotations. |
| LifecycleTheorems.RevocationEmpties | packages/openauth/src/adapters/memory/token-store.ts:103-131 | The step that detects a replay removes every row of the family and starts no mint. |
| LifecycleTheorems.MintCanLand | packages/openauth/src/domain/token.ts:430-455 | A mint in flight can always still save its token. |
| LifecycleTheorems.ReuseRevocation | packages/openauth/src/adapters/memory/token-store.ts:103-151 | After reuse detection the family stays empty in every continuation if and only if no mint of it was in flight at that step. |
| LifecycleTheorems.TokenConsumedOnce | packages/openauth/src/adapters/postgres/token-store.ts:133-150 | However many calls present a token, atomic or split, at most one succeeds. |
| LifecycleTheorems.MissIsExplainedIff | packages/openauth/src/adapters/postgres/token-store.ts:133-202 | After any claim that misses, in every execution, the lookup finds one of the four reasons however the run goes on if and only if the token had been issued; the branch commented as unreachable is reachable from every other miss. |
| LifecycleTheorems.IssuedStaysExplained | packages/openauth/src/adapters/postgres/token-store.ts:151-202 | A lookup for a token that was issued at the claim finds a reason in every continuation. |
| LifecycleTheorems.RotationsPresentIssuedTokens | packages/openauth/src/domain/refresh.ts:91-163 | Refresh requests only ever consume issued tokens. |
| LifecycleTheorems.GuessCanBeIssued | packages/openauth/src/adapters/postgres/token-store.ts:199-201 | A token that was guessed can be issued in two steps, live at the reading of the clock the claim took. |
| LifecycleDeletes.RevocationByRows | packages/openauth/src/adapters/dynamo/token-store.ts:199-219 | A family revoked row by row is empty for good, whenever its deletes come to their end and whatever runs between, if and only if at the query no mint of it was in flight and none of its rows could be claimed. |
| LifecycleDeletes.QuietQueryEmpties | packages/openauth/src/adapters/dynamo/token-store.ts:199-219 | With no mint in flight and no claimable row at the query, every run that completes the deletes leaves the family empty for good. |
| LifecycleDeletes.EarlyQueryLeaves | packages/openauth/src/adapters/dynamo/token-store.ts:199-219 | Otherwise a mint that lands, or a rotation that starts, between query and deletes leaves a token behind. |
| Refresh.RefreshTokens | packages/openauth/src/domain/refresh.ts:85-244 | The refresh grant on the in-memory store succeeds if and only if the token is unused and in time at both clock readings, its own client presents it with its key for granted scopes, and signing succeeds; then the token is spent and one row added with the same family and line, the given subject and times, and the granted scopes if none were asked for, else exactly those. With a fresh new token, the store is as it was exactly when the request is refused at the gates or at the consume for a reason other than a replay in the window. |
| Refresh.RotatesIff | packages/openauth/src/domain/refresh.ts:85-181 | The same condition for the sequential specification. |
| Refresh.UntouchedIff | packages/openauth/src/domain/refresh.ts:89-163 | A refresh leaves the store untouched if and only if it is refused at the gates, or at the consume for a reason other than a replay in the window. |
| Refresh.RefusalsLeaveNoTrace | packages/openauth/src/domain/refresh.ts:89-163 | Any number of refused requests leave the store as it was, so a later refresh gets the answer it would have got. |
| Refresh.RotationHandsOn | packages/openauth/src/domain/refresh.ts:183-231 | A successful refresh spends one token and adds one, with family, line, subject, times and exact scopes as above; every other row is unchanged. |
| Handlers.SaveEncryptedCode | packages/openauth/src/domain/token.ts:65-84 | A code is saved sealed under the current key for the fixed time to live, or not at all. |
| Handlers.PersistState | packages/openauth/src/domain/method-dispatch.ts:92-108 | Method state of a challenge is persisted, by the store's update, before the response; nothing else is written. |
| Handlers.Complete | packages/openauth/src/domain/authorize.ts:380-432 | Turning a flow into a code is TakeFlow then IssueCode of the machine; a challenge is SaveMethodState. |
| Handlers.CompletedAnswers | packages/openauth/src/domain/authorize.ts:218-432 | What /authorize leaves behind, field by field: a code that says what was asked for and the flow gone, or the flow waiting for its lifetime with the state the method keeps. |
| Handlers.StartAuthorize | packages/openauth/src/domain/authorize.ts:136-284 | /authorize alone is its machine steps. It goes through if and only if the request is acceptable, its method resolves and the lifetime is positive, and answers a code if and only if then the method succeeds and there is a key; otherwise the stores are as they were. |
| Handlers.HandleMethodRoute | packages/openauth/src/domain/method-route.ts:101-235 | A method route alone is its machine steps. For a live flow it issues a code if and only if tenant and method are the flow's, the method succeeds and there is a key; the code says what the stored record says. |
| Handlers.HandleCallback | packages/openauth/src/domain/callback.ts:143-275 | A callback alone is its machine steps. It issues a code if and only if the flow is stored and unexpired, its tenant, nonce, host and path (up to final slashes) are the callback's, the method succeeds and there is a key; the code says what the stored record says; the flow is gone in every case. |
| Handlers.ExchangeCode | packages/openauth/src/domain/token.ts:136-270 | The code grant alone is Redeem, GrantFamily and SaveToken. It succeeds if and only if the code is there, in time and readable, its tenant known, its client presents it properly, the claim resolves and signing succeeds; then the one new row is bound to the DPoP key of the request and carries, field by field, what the code says; the code is gone in every case. |
| Handlers.RevokeToken | packages/openauth/src/domain/revoke.ts:53-143 | /revoke alone is PeekRevoke, GateRevoke and ConsumeAtomically. It is refused if and only if the client of a known token fails to authenticate; a token its client presents is used up, a used-up one takes its family down in the same millisecond; nothing else changes. |
| Handlers.RevokeAllForSubject | packages/openauth/src/domain/revoke.ts:145-160 | Exactly the tenant and subject's tokens go; the others stay as they were. |
| Handlers.RefreshIsItsSteps | packages/openauth/src/domain/refresh.ts:85-244 | The refresh grant alone is Peek, Gate, ConsumeAtomically and SaveToken of the machine. |
| ScimFilter.FindOperator | packages/openauth/src/domain/scim/filter.ts:85-111 | The scan finds the first operator outside quotes and brackets, and none exactly when there is none. |
| ScimFilter.MaskQuoted | packages/openauth/src/domain/scim/filter.ts:242-255 | The mask keeps length and syntax and blanks what is inside literals. |
| ScimFilter.SplitTopLevelAnd | packages/openauth/src/domain/scim/filter.ts:262-295 | The split is at every standalone top-level and; pieces are trimmed, blank ones dropped. |
| ScimFilter.TrimParts | packages/openauth/src/domain/scim/filter.ts:294 | Trimming keeps the non-blank pieces in order. |
| ScimFilter.ParseTerm | packages/openauth/src/domain/scim/filter.ts:114-174 | One term is what the term specification says, whose meaning is stated below. |
| ScimFilter.ParseScimFilter | packages/openauth/src/domain/scim/filter.ts:182-235 | The whole filter is what the filter specification says, whose meaning is stated below. |
| ScimFilterTheorems.StructureIsOfTheMask | packages/openauth/src/domain/scim/filter.ts:191-226 | Structural checks, number of terms and split positions are those of the mask. |
| ScimFilterTheorems.QuotedContentIsInert | packages/openauth/src/domain/scim/filter.ts:191-226 | Filters that differ in quoted content only pass or fail the structural checks alike and split at the same places. |
| ScimFilterTheorems.UnescapeInverts | packages/openauth/src/domain/scim/filter.ts:164-168 | The two-pass unescape inverts the escaping of quotes and backslashes for every value. |
| ScimFilterTheorems.NamedIff | packages/openauth/src/domain/scim/filter.ts:40-47 | An attribute answers to its printed name in any case, and to nothing else. |
| ScimFilterTheorems.OneTermRoundTrips | packages/openauth/src/domain/scim/filter.ts:114-235 | Every printable term, on an attribute by its printed name in any case and with whatever characters in its value, parses back as itself. |
| ScimFilterTheorems.TwoTermsRoundTripIff | packages/openauth/src/domain/scim/filter.ts:182-295 | Two printed terms joined by and parse back if and only if the first is not a string ending in a backslash. |
| ScimFilterTheorems.QualifiedPathParses | packages/openauth/src/domain/scim/filter.ts:62-111 | Entra's emails[type eq "..."].value path parses to emails.value, its inner operator passed over. |
| ScimFilterTheorems.ThrowsIff | packages/openauth/src/domain/scim/filter.ts:182-295 | The parser throws on a missing first term if and only if the trimmed text is not empty and every character of it is white space or in an and, of any case, bounded by a space or an end. |
| ScimFilterMeanings.DenotesIff | packages/openauth/src/domain/scim/filter.ts:62-76 | A text denotes an attribute if and only if it is its name in any case or, for an address, that name with a qualifier in brackets. |
| ScimFilterMeanings.TermMeans | packages/openauth/src/domain/scim/filter.ts:114-174 | What every text with an operator means: the error for an operator other than eq, for an attribute not denoted or not allowed, for a value not a boolean, not quoted or empty; else the comparison of the attribute denoted with the value unescaped. |
| ScimFilterMeanings.UnparseableIff | packages/openauth/src/domain/scim/filter.ts:85-126 | A text is no term if and only if it has no operator: a space outside quotes and brackets, then two or three letters, then space or the end. |
| ScimFilterMeanings.ReadTermsAreSound | packages/openauth/src/domain/scim/filter.ts:114-174 | A term that is read compares, with eq in some case, an attribute that the text before it denotes and the caller allows, with a value that is not empty. |
| ScimFilterMeanings.AndIsAWord | packages/openauth/src/domain/scim/filter.ts:274-287 | Terms are parted by an and in any case, outside literals and brackets, with a space or an end on both sides. |
| ScimFilterMeanings.StructureRefusals | packages/openauth/src/domain/scim/filter.ts:182-226 | Which filters are refused for what stands outside their literals, and in which order: parentheses, more than two terms, or, not; blank text selects everything. |
| ScimFilterMeanings.FilterMeans | packages/openauth/src/domain/scim/filter.ts:228-235 | A filter that passes is its one or two terms in their order, each read as if alone; the first that is not read is the answer. |
| ScimFilterMeanings.ForbiddenAttribute | packages/openauth/src/domain/scim/filter.ts:136-145 | A printed term on an attribute that is not allowed is refused. |
| ScimFilterMeanings.ForeignUserName | packages/openauth/src/domain/scim/filter.ts:55-60 | So a group cannot be filtered by user name, a user can. |
| ScimFilterMeanings.ForeignDisplayName | packages/openauth/src/domain/scim/filter.ts:55-60 | And a user not by display name, a group can. |
| ScimFilterMeanings.OtherOperator | packages/openauth/src/domain/scim/filter.ts:128-134 | A comparison with any other operator is refused, on every attribute. |
| ScimFilterMeanings.OtherOperatorFilter | packages/openauth/src/domain/scim/filter.ts:128-134 | And so is a filter that is such a comparison. |
| ScimLists.UpsertPlaces | packages/openauth/src/domain/scim/patch.ts:139-160 | An upsert changes or appends one entry: the first of the type gets the value; failing that the one untyped entry gets value and type; failing that an entry is appended. Every other entry stays as it is, where it is. |
| ScimLists.RemovalKeeps | packages/openauth/src/domain/scim/patch.ts:259-262 | Removing a type keeps every entry of another type, once and in its order. |
| ScimLists.RemovalPassesUpsert | packages/openauth/src/domain/scim/patch.ts:139-262 | A removal and an upsert of different types commute, adoption of an untyped entry included. |
| ScimDraft.WorkingDraft.ApplyOperation | packages/openauth/src/domain/scim/patch.ts:209-492 | Applying an operation makes exactly the edits it compiles to, up to its first error, on every JSON value (it terminates on nesting and fan-out, blank keys included). |
| ScimDraft.WorkingDraft.ApplyFields | packages/openauth/src/domain/scim/patch.ts:234-238 | The loops over an object's fields stop at the first error and otherwise make every field's edits in order. |
| ScimDraft.WorkingDraft.ApplyMultiValued | packages/openauth/src/domain/scim/patch.ts:244-281 | Operations on a typed entry of emails or phone numbers. |
| ScimDraft.WorkingDraft.ApplyEnterprise | packages/openauth/src/domain/scim/patch.ts:325-361 | Operations on an extension attribute. |
| ScimDraft.WorkingDraft.ApplyName | packages/openauth/src/domain/scim/patch.ts:363-409 | Operations on the name and its parts. |
| ScimDraft.WorkingDraft.ApplySimple | packages/openauth/src/domain/scim/patch.ts:415-491 | Operations on top-level attributes make exactly the edits they compile to. |
| ScimDraft.NormalizePatch | packages/openauth/src/domain/scim/patch.ts:498-581 | The whole normalization is its specification, whose meaning for each attribute is stated below. |
| ScimPatchTheorems.ExecStandsFor | packages/openauth/src/domain/scim/patch.ts:188-195 | After every edit the delta so far, applied to the starting record, is the edited record, and the working copies are its attributes up to empty lists and names. |
| ScimPatchTheorems.ManyIsOneByOne | packages/openauth/src/domain/scim/patch.ts:209-580 | A multi-operation PATCH means its operations sent one at a time: same final record or same first error, skipped operations included. |
| ScimPatchTheorems.TouchedByBodyAlone | packages/openauth/src/domain/scim/patch.ts:498-580 | Success, error and the touched attributes depend on the body alone, for any two records. |
| ScimPaths.QualifiedParses | packages/openauth/src/domain/scim/patch.ts:114-126 | A printed qualified path with any quote-free type parses back. |
| ScimPaths.QualifiedCompiles | packages/openauth/src/domain/scim/patch.ts:241-281 | An operation on a qualified path is an operation on the entry of that type. |
| ScimPaths.TargetsParse | packages/openauth/src/domain/scim/patch.ts:114-126 | Every path of the shape letters[type eq "kind"].letters, white space and case as the pattern allows, is read as its parts. |
| ScimPaths.ParsedTargets | packages/openauth/src/domain/scim/patch.ts:114-126 | And every path that is read has that shape. |
| ScimShapes.PathlessIsOneByOne | packages/openauth/src/domain/scim/patch.ts:224-239 | A pathless object is one operation per field, in order. |
| ScimShapes.ExtensionIsOneByOne | packages/openauth/src/domain/scim/patch.ts:298-324 | The bare extension URN with an object is one qualified operation per field. |
| ScimShapes.WordPath | packages/openauth/src/domain/scim/patch.ts:290-295 | A plain word in any case names a top-level attribute. |
| ScimShapes.DottedPath | packages/openauth/src/domain/scim/patch.ts:363-413 | name.sub in any case names a part of the name; other dotted paths are skipped. |
| ScimShapes.ExtensionPath | packages/openauth/src/domain/scim/patch.ts:92-108 | The extension URN and a word, in any case, name an extension attribute. |
| ScimShapes.OpWords | packages/openauth/src/domain/scim/patch.ts:215-222 | The operations are add, replace and remove in any case, and no other word. |
| ScimMeanings.OtherOpsFail | packages/openauth/src/domain/scim/patch.ts:215-222 | Any other word fails the request, whatever else it says. |
| ScimMeanings.ActiveIff | packages/openauth/src/domain/scim/patch.ts:417-431 | For every value and in both spellings, a replace or add of active ends with active == b if and only if the value is the boolean b or its word in any case, and fails otherwise. |
| ScimMeanings.UserNameMeans | packages/openauth/src/domain/scim/patch.ts:432-446 | userName is set to a non-empty text; anything else fails. |
| ScimMeanings.ExternalIdMeans | packages/openauth/src/domain/scim/patch.ts:447-450 | externalId is set to a text, and cleared by a removal or anything else. |
| ScimMeanings.DisplayNameMeans | packages/openauth/src/domain/scim/patch.ts:451-454 | So is displayName. |
| ScimMeanings.RequiredStay | packages/openauth/src/domain/scim/patch.ts:417-435 | active and userName cannot be removed. |
| ScimMeanings.OtherWordsAreSkipped | packages/openauth/src/domain/scim/patch.ts:489-490 | Every other plain word is passed over. |
| ScimMeanings.EntriesAreFlat | packages/openauth/src/domain/scim/patch.ts:471-483 | A list has an entry for each object with a text under value, in their order, with its type and primary mark if they are text and boolean. |
| ScimMeanings.ListMeans | packages/openauth/src/domain/scim/patch.ts:455-488 | emails and phoneNumbers are set to those entries, an empty list being none; no array fails, a removal clears. |
| ScimMeanings.KindIs | packages/openauth/src/domain/scim/patch.ts:139-160 | Types are compared without case; an entry without a type has the empty one. |
| ScimMeanings.TargetMeans | packages/openauth/src/domain/scim/patch.ts:244-281 | An operation on the typed entry of any attribute: an address of one type is upserted, or the type removed, in emails or phoneNumbers; other attributes are passed over, other parts of an entry fail, and so do values that are no text. |
| ScimMeanings.NameSubIff | packages/openauth/src/domain/scim/patch.ts:162-178 | The parts of a name are known by their lower-case spelling. |
| ScimMeanings.EnterpriseSubIff | packages/openauth/src/domain/scim/patch.ts:180-186 | So are the attributes of the extension. |
| ScimMeanings.NameEntriesAre | packages/openauth/src/domain/scim/patch.ts:380-385 | An object gives each part of the name the last text under it, in any case. |
| ScimMeanings.NameMeans | packages/openauth/src/domain/scim/patch.ts:363-389 | add of a name keeps the parts it does not mention, replace drops them; no object fails. |
| ScimMeanings.AddKeepsReplaceDrops | packages/openauth/src/domain/scim/patch.ts:373-379 | Shown on one part of a name that has another. |
| ScimMeanings.NamePartMeans | packages/openauth/src/domain/scim/patch.ts:390-409 | A part of the name is set under its own spelling or removed, the others stay; a value that is no text fails. |
| ScimMeanings.OtherPartsFail | packages/openauth/src/domain/scim/patch.ts:390-392 | Other parts of a name fail. |
| ScimMeanings.NameIsRemoved | packages/openauth/src/domain/scim/patch.ts:365-369 | A removed name is gone. |
| ScimMeanings.ExtensionMeans | packages/openauth/src/domain/scim/patch.ts:342-360 | An attribute of the extension is set to a text under its own spelling, or removed; a value that is no text fails. |
| ScimMeanings.ExtensionRest | packages/openauth/src/domain/scim/patch.ts:342-344 | Any other word of the extension is passed over. |
| ScimMeanings.ExtensionInherits | packages/openauth/src/domain/scim/patch.ts:325-360 | Except one that every object inherits: it is stored under the text of the function. |
| ScimMeanings.ManagerMeans | packages/openauth/src/domain/scim/patch.ts:326-341 | The manager is an id, or an object with an id and a name; or is removed. |
| ScimMeanings.BareExtension | packages/openauth/src/domain/scim/patch.ts:298-310 | The whole extension is removed by its bare URN, and set only by an object. |
| ScimMeanings.CorePath | packages/openauth/src/domain/scim/patch.ts:103-107 | The core URN before a word, in any case, says nothing more than the word. |
| ScimMeanings.OtherPartsAreSkipped | packages/openauth/src/domain/scim/patch.ts:411-413 | A part of anything but the name is passed over. |
| ScimMeanings.DeepPathFails | packages/openauth/src/domain/scim/patch.ts:290-295 | Two dots are one too many. |
| ScimMeanings.BracketPathFails | packages/openauth/src/domain/scim/patch.ts:283-288 | A bracket after a word fails, unless the path has the one shape that is read. |
| ScimMeanings.BlankPath | packages/openauth/src/domain/scim/patch.ts:224-233 | A blank path is none; then a removal fails, and so does a value that is no object. |
| ScimMeanings.BodyRefusals | packages/openauth/src/domain/scim/patch.ts:498-531 | What is refused before any operation is looked at: a body that is no object, one that declares other schemas, one without operations. |
| ScimMeanings.OperationRefusals | packages/openauth/src/domain/scim/patch.ts:546-560 | An operation has to be an object with a text under op. |
| ScimLists.PutShows | packages/openauth/src/domain/scim/patch.ts:139-160 | After an upsert the first entry of the type has the value, adopted untyped entries included. |
| ScimLists.PutKeepsShown | packages/openauth/src/domain/scim/patch.ts:139-160 | An upsert of one type leaves what other types show. |
| ScimLists.PutsAreIdempotent | packages/openauth/src/domain/scim/patch.ts:139-160 | A run of upserts is idempotent however types repeat and entries are adopted. |
| ScimIdempotence.PatchIsIdempotent | packages/openauth/src/domain/scim/patch.ts:498-581 | In particular, for every body and record, when each list is assigned or cleared as a whole in it or no type of the list is both removed and written; name and extension may be edited and removed in any way. |
| ScimIdempotence.Sorted | packages/openauth/src/domain/scim/patch.ts:244-281 | Such edits of a list come to its removals first and its upserts after them. |
| ScimIdempotence.WithoutRemovalsSeparable | packages/openauth/src/domain/scim/patch.ts:209-281 | A body without remove operations meets that condition. |
| ScimRepeatsIff.PatchIsIdempotentIff | packages/openauth/src/domain/scim/patch.ts:498-581 | A PATCH that is carried out can be sent again, whatever record it meets, if and only if its edits of either list are repeatable: the list is assigned or cleared as a whole; or no type is written after it was removed, and none is both removed and written; or the first type written again is removed once more, and every type that is written and never removed is written before any that is removed and written for good. |
| ScimRepeatsIff.ListIsIdempotentIff | packages/openauth/src/domain/scim/patch.ts:139-281 | The same of one list: edits leave every list alike, made once or twice, exactly then. |
| ScimRepeats.SteadySorted | packages/openauth/src/domain/scim/patch.ts:139-281 | On a list where nothing can be adopted, a run of edits is its removals followed by the upserts that no later removal undoes. |
| ScimRepeats.SteadyTwice | packages/openauth/src/domain/scim/patch.ts:139-281 | On such a list a run in order is idempotent. |
| ScimRepeats.Replaceable | packages/openauth/src/domain/scim/patch.ts:152-159 | Where the first type written again is removed once more, the lone untyped entry might as well not be there, or be of the type that adopts it. |
| ScimRepeatsIff.MixedShows | packages/openauth/src/domain/scim/patch.ts:139-262 | A type written and then removed: the second time the untyped entry is adopted and removed. |
| ScimRepeatsIff.UnsettledShows | packages/openauth/src/domain/scim/patch.ts:139-262 | A type removed and then written for good first: a primary entry is adopted the first time and lost the second. |
| ScimRepeatsIff.DisorderShows | packages/openauth/src/domain/scim/patch.ts:139-262 | A type written for good after a removal, before one that is never removed: the two change places. |
| ScimIdempotence.RemovalsAreNot | packages/openauth/src/domain/scim/patch.ts:152-159 | Remove then add of a type is not: it adopts an untyped entry the first time and makes a fresh one the second. |
| ScimGroupDraft.WorkingGroup.ApplyAdd | packages/openauth/src/domain/scim/patch.ts:658-668 | Adds go to the replacement if there is one, else to the increments, by id without repeats. |
| ScimGroupDraft.WorkingGroup.ApplyRemove | packages/openauth/src/domain/scim/patch.ts:669-675 | Removals shrink the replacement if there is one, else join the increments. |
| ScimGroupDraft.WorkingGroup.Handle | packages/openauth/src/domain/scim/patch.ts:677-769 | Handling an operation makes exactly the edits it compiles to, up to its first error. |
| ScimGroupDraft.NormalizeGroupPatch | packages/openauth/src/domain/scim/patch.ts:617-807 | The whole group normalization. |
| ScimGroupTheorems.ReplacementIsTheMembership | packages/openauth/src/domain/scim/patch.ts:718-736 | With a full replacement the emitted members are, as a set, what the operations lead to one at a time from any membership, and no increment is emitted. |
| ScimGroupTheorems.IncrementsMeanOperationsIff | packages/openauth/src/domain/scim/patch.ts:791-797 | Without one the increments mean the operations in either host order, for every membership, if and only if no id is both added and removed. |
| ScimGroupTheorems.TargetedRemoval | packages/openauth/src/domain/scim/patch.ts:590-593 | A printed members[value eq "..."] path with any quote-free id parses back and removes that id. |
| ScimGroupTheorems.ListedMembers | packages/openauth/src/domain/scim/patch.ts:718-736 | A list of members is added, removed or put in place; removal without a value empties the group. |
| ScimGroupMeanings.MembersOf | packages/openauth/src/domain/scim/resource.ts:267-280 | A list of members has one for each object with a non-empty text under value, in their order, with the non-empty text under display; one object is a list of one. |
| ScimGroupMeanings.JoinedAppendsNews | packages/openauth/src/domain/scim/patch.ts:658-668 | Adding members appends the new ones, each id once, as it first comes. |
| ScimGroupMeanings.JoinedIdsAppendNews | packages/openauth/src/domain/scim/patch.ts:669-675 | So does removing, for the ids to remove. |
| ScimGroupMeanings.WithoutIsStaying | packages/openauth/src/domain/scim/patch.ts:670-673 | Taking ids out of a replacement leaves the other members as they are, in their order. |
| ScimGroupMeanings.MembersMean | packages/openauth/src/domain/scim/patch.ts:718-736 | What one operation on members asks of the host, for every value and in both spellings: members to add, to take out, or to be all there are; without a value a removal leaves nobody; no list fails. |
| ScimGroupMeanings.DisplayNameMeans | packages/openauth/src/domain/scim/patch.ts:746-760 | displayName is set to a non-empty text and cannot be removed. |
| ScimGroupMeanings.ExternalIdMeans | packages/openauth/src/domain/scim/patch.ts:761-765 | externalId is set to a text, and cleared by a removal or anything else. |
| ScimGroupMeanings.OtherWordsFail | packages/openauth/src/domain/scim/patch.ts:766-767 | Nothing else of a group can be patched. |
| ScimGroupMeanings.BracketPathFails | packages/openauth/src/domain/scim/patch.ts:738-743 | Nor can a path with a bracket be read that has not that one shape. |
| ScimGroupMeanings.OtherOpsFail | packages/openauth/src/domain/scim/patch.ts:682-689 | No other operation exists. |
| ScimGroupMeanings.TargetedMeans | packages/openauth/src/domain/scim/patch.ts:706-716 | A member named in the path can only be removed. |
| ScimGroupMeanings.TargetsParse | packages/openauth/src/domain/scim/patch.ts:590-593 | Every path of the shape members[value eq "id"], white space and case as the pattern allows, is read as its id. |
| ScimGroupMeanings.ParsedTargets | packages/openauth/src/domain/scim/patch.ts:590-593 | And every path that is read has that shape. |
| ScimGroupMeanings.PathlessIsPerField | packages/openauth/src/domain/scim/patch.ts:691-703 | A pathless object is one operation per field, in the fields' order, up to the first error; anything else without a path fails. |
| ScimGroupMeanings.BodyRefusals | packages/openauth/src/domain/scim/patch.ts:617-650 | What is refused before any operation is looked at. |
| ScimGroupMeanings.FirstErrorDecides | packages/openauth/src/domain/scim/patch.ts:771-789 | The first operation that fails by itself is the answer, and only that makes the request malformed. |
| ScimGroupMeanings.LastOneStays | packages/openauth/src/domain/scim/patch.ts:756-763 | Of several names, or external ids, the last one stays. |
| SubjectTheorems.QuotesDiffer | packages/openauth/src/domain/token.ts:552-559 | JSON string literals delimit themselves: equal texts have equal strings and equal rests. |
| SubjectTheorems.CanonicalIff | packages/openauth/src/domain/token.ts:552-559 | Canonical texts are equal if and only if the values are equal up to key order of objects outside arrays. |
| SubjectTheorems.TextHasNoNul | packages/openauth/src/domain/token.ts:552-559 | Canonical text contains no NUL. |
| SubjectTheorems.SeedsIff | packages/openauth/src/domain/token.ts:535-550 | With NUL-free sector and type, seeds are equal if and only if optional sector, type and properties are; public and pairwise seeds never coincide. |
| SubjectTheorems.HostKeySeedsIff | packages/openauth/src/domain/token.ts:541-548 | For host-supplied keys, with any characters, seeds are equal if and only if sector, type and key are, or a public type is the sector of a pairwise subject and the public key spells out its type, a NUL and its key. |
| Subject.DerivedIdsAreHashFree | packages/openauth/src/domain/token.ts:549 | Derived ids are #-free, so the DynamoDB subject key is exact for them. |
| SubjectMeanings.LessIff | packages/openauth/src/domain/token.ts:557 | Keys are ordered by the first character in which they differ, a key before its continuations. |
| SubjectMeanings.CanonicalObject | packages/openauth/src/domain/token.ts:552-559 | The canonical text of an object is its fields in the ascending order of their keys, whatever order they came in, each with the canonical text of its value, between commas. |
| SubjectMeanings.OrderExists | packages/openauth/src/domain/token.ts:557 | There is such an order of every object's fields. |
| SubjectMeanings.CanonicalRest | packages/openauth/src/domain/token.ts:553-555 | Everything else is its JSON text; objects in an array keep their fields as they came. |
| SubjectMeanings.EscapeOf | packages/openauth/src/domain/token.ts:554-558 | How each character of a string is written: quotes and backslashes escaped, control characters by letter or in hexadecimal. |
| SubjectMeanings.EscapesAppend | packages/openauth/src/domain/token.ts:554-558 | And one character after the other. |
| SubjectMeanings.SeedLayout | packages/openauth/src/domain/token.ts:544-548 | A pairwise seed begins with its sector; a host's own key takes the place of the properties; NULs separate. |
| SubjectMeanings.IdsIff | packages/openauth/src/domain/token.ts:549 | An id has 22 characters, and two are equal if and only if the digests of their seeds agree in these. |
| Dpop.AcceptedIff | packages/openauth/src/domain/dpop.ts:178-243 | A proof is accepted if and only if it is genuine, names itself, is for this method, address and access token, was issued no further than the tolerance from the check in whole seconds, and its identifier is not on record; then it is on record for its time to live, and a proof that does not fit leaves no record. |
| Dpop.VerifyDpopProof | packages/openauth/src/domain/dpop.ts:178-243 | The checks in order are that. |
| Dpop.AcceptancesAreApart | packages/openauth/src/domain/dpop.ts:210-243 | With a clock that does not go back two acceptances of one jti are recorded at least its time to live apart. |
| Dpop.AtMostIff | packages/openauth/src/domain/dpop.ts:210-243 | With at most this lag between the two clock readings of a request, a proof is accepted at most n times in every history if and only if n times to live cover the window of 2 * tolerance + 1 seconds and the lag. |
| Dpop.SingleUseIff | packages/openauth/src/domain/dpop.ts:46-50 | It is accepted at most once in every history if and only if one time to live covers window and lag. |
| Dpop.DefaultsAllowTwo | packages/openauth/src/domain/dpop.ts:46-50 | With the defaults two acceptances are checked in the first and in the last second of the window, give or take the lag. |
| Dpop.DefaultsAllowNoThirdIff | packages/openauth/src/domain/dpop.ts:46-50 | With the defaults a second acceptance is always possible, and a third is not if and only if the lag is at most 119 seconds. |
| Dpop.SweepingIsInvisible | packages/openauth/src/adapters/memory/token-store.ts:168-180 | Sweeping expired records never changes an answer against a store that never sweeps. |
| Dpop.SweepingShowsWhenClocksGoBack | packages/openauth/src/adapters/memory/token-store.ts:168-180 | With a clock that goes back it does. |
| Methods.MethodCache.Resolve | packages/openauth/src/domain/method-cache.ts:50-89 | Resolve, with positive and negative cache: answer and new cache as specified. |
| Methods.MethodCache.Invalidate | packages/openauth/src/domain/method-cache.ts:92-105 | The two deletion loops drop exactly the tenant's keys, or the one key. |
| MethodCacheTheorems.FirstMethodFound | packages/openauth/src/domain/method-cache.ts:66 | A method id names the first method configured under it, and none exactly when none is. |
| MethodCacheTheorems.UncachedMeans | packages/openauth/src/domain/method-cache.ts:66-206 | What the first method configured under an id gives: the method its factory builds for the tenant from the configuration it parsed, if enabled and if the factory returns the id and kind it was asked for; and else why not. |
| MethodCacheTheorems.ResolveMeans | packages/openauth/src/domain/method-cache.ts:50-89 | What was built is answered again, what failed is refused, every other build is remembered whichever way it went, and a method that is missing or disabled is not. |
| MethodCacheTheorems.InvalidationMeans | packages/openauth/src/domain/method-cache.ts:92-105 | Invalidating one method, or a tenant's, forgets those and no others, for NUL-free tenants. |
| Methods.MemoryConfigStore.PutTenantConfig | packages/openauth/src/adapters/memory/config-store.ts:32-36 | Putting a configuration stores it and invalidates that tenant in every listening cache. |
| MethodCacheTheorems.KeysDiffer | packages/openauth/src/domain/method-cache.ts:208-210 | Cache keys of NUL-free tenants determine tenant and method. |
| MethodCacheTheorems.CachingIsTransparent | packages/openauth/src/domain/method-cache.ts:50-105 | After any history of configuration reads, resolves, writes, notifications and invalidations, interleaved in any order, resolve agrees with an uncached build for every method of every tenant whose listeners have been told, as long as each notification, and each read of an older copy, changes nothing for what the requests under way have yet to resolve. |
| MethodCacheTheorems.StaysTransparentIff | packages/openauth/src/domain/method-cache.ts:50-105 | In every well-formed state, resolve agrees with uncached builds from then on if and only if it does now and every request under way, whatever copy of the configuration it holds and however far it is, would store what the current configuration gives. |
| MethodCacheTheorems.PutIsSafeIff | packages/openauth/src/domain/method-cache.ts:50-105 | A put keeps it so if and only if each request of its tenant under way, building or still holding an older copy, would store what the new configuration gives. |
| MethodCacheTheorems.PutDuringBuildsIff | packages/openauth/src/domain/method-cache.ts:82-89 | Where all those requests are building already, if and only if their builds agree with the new configuration. |
| MethodCacheTheorems.HarmfulShows | packages/openauth/src/domain/method-cache.ts:71-89 | A request that would store something else does so, in a run of its own look-ups and builds and one invalidation of the method. |
| MethodCacheTheorems.ResolveIsItsSteps | packages/openauth/src/domain/method-cache.ts:50-89 | Read, look-up and finish without interference are one resolve. |
| MethodCacheTheorems.OvertakenRequestGoesStale | packages/openauth/src/http/middleware/tenant.ts:141-156 | Instances: a put overtakes a request that has read the old configuration, before or after it has looked the method up, and the old method is served from then on. |
| MethodCacheTheorems.PutThenResolve | packages/openauth/src/index.ts:261-269 | A configuration put through the store reaches a listening cache before the call returns: the next resolve is the uncached build, whatever was cached. |
| Methods.CreateCache | packages/openauth/src/index.ts:255-269 | A new cache is empty and listens to the configuration store. |
| MethodCacheTheorems.SharedKeyIff | packages/openauth/src/domain/method-cache.ts:208-210 | Two tenants share a cache key if and only if one of their ids continues the other with a NUL. |
| MethodCacheTheorems.NulTenantsShareKeys | packages/openauth/src/domain/method-cache.ts:208-210 | An instance: one tenant is served the method of another. |

## Left out

- HTTP routing, cookies, schemas, forms, JWT signing and verification, key stores, WebAuthn, upstream OAuth and OIDC clients, SCIM discovery, serialization and paging, `/end_session`, `/introspect`, `/register`, PAR: plumbing, foreign libraries or easy members.
- Error texts, HTTP status and SCIM detail strings: errors are constructors, one per branch.
- IdP-initiated callbacks and token exchange: steps that create an unrelated code or family; their scopes are not checked against any /authorize.
- Audit log, success and token-issued hooks: no store effect; a request may abort where they could fail.
- Subject ids at mint time are arbitrary in the lifecycle; `Subject` derives them.
- Fields without a part in any property (prompt, UI locales, application state, claim context) are dropped from flows and codes, and the claims of a family are one string.
- The result of a method dispatch and the store call that follows it are one step; persisting method state is a step of its own.
- JSON text of payload columns and items: a row holds the payload itself.
- DynamoDB index lag and pagination, SQL driver errors, replica lag. A DynamoDB delete that fails is skipped by the code; here every delete reaches the table.
- Lower-casing and case-insensitive matching are ASCII. None of the fixed names the code compares with contains a letter that a non-ASCII character lower-cases to; two labels of a multi-valued entry that differ in non-ASCII case only are different here.
- Strings are sequences of characters, not UTF-16 units: lone surrogates do not occur, and object keys with characters beyond the basic plane sort by code point.
- The token type hint of `/revoke`, and the choice among several enabled methods at `/authorize`.
- Dpop.AtMostIff: `iat` is an integer here, where the code accepts any number. For a fractional one the window holds one whole second less, so that a time to live that covers the window still suffices, but a shorter one may.
- A manager's absent and undefined parts are not told apart.
- Keys that plain objects inherit are modelled for the name and extension tables of PATCH; a method kind named like an inherited property is not.
- `Methods.Build` does not model the audit events of failed builds.
