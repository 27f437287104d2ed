# nildb core: accounts, bootstrap, query variables and route guards

nildb is a document database node. Organizations register accounts, own
schemas and stored queries, and call the node with capability tokens (NUCs).
This project models five parts of that node and proves properties of them:

- **Accounts repository** (`AccountsRepository`, `AccountCache`, `AccountTypes`).
  The accounts collection is a map from DID to document. The accounts cache is
  a class with entries and a set of tainted keys. `Repository` is a class
  holding the store and the cache, and it has the methods `insert`,
  `findByIdWithCache`, `deleteOneById`, `setSubscriptionState` and
  `setPublicKey`. Each method states its whole new store, what it does to the
  cache, and every error path: a missing collection, a driver failure, or a
  document that is not found. Two invariants are preserved: every document is
  keyed by its own id, and every cache hit agrees with the store. There are two
  exceptions to the second. `setPublicKey` does not refresh the cache. `insert`
  does not touch the cache, so a document inserted under an id that is already
  cached is not served. The root account's DID is such an id: it is cached at
  bootstrap, and an organization inserted under it is stored but the cached root
  document answers every lookup. Three further methods model the intended
  behaviour listed under "## Findings": delete and subscription updates that
  spare the root account's DID, and a key rotation that taints the cache.
- **Bootstrap** (`Env`, `RootAccountLifecycle`).
  - `loadBindings` uses an override verbatim, or else parses the process
    environment against `EnvVarsSchema`.
  - `APP_ENABLED_FEATURES` is split on commas.
  - The ports go through JavaScript's `Number()`. Surrounding white space is
    ignored. A sign, a decimal point and an exponent are read, and so are the
    `0x`, `0o` and `0b` prefixes, with exact arithmetic.
  - String lengths are UTF-16 code units, as zod counts them.
  - The root account is seeded into a fresh cache with an unlimited lifetime.
  - `hasFeatureFlag` tests list membership.
  - Four methods follow the root account through the repository:
    - it is served from the cache;
    - `deleteOneById` evicts it;
    - `setSubscriptionState` taints it;
    - an organization inserted under its DID is never served.
  - Four more set the code as written beside the intended behaviour recorded
    under "## Findings". With the root exempt, a delete or a subscription
    update naming its DID leaves it served. A key rotation is not seen after a
    cached read as written, and is seen once the rotation taints the cache.
- **Pipeline variable injection** (`Json`, `PipelineInjection`, `PipelineInjectionExamples`).
  A string leaf `##name` in an aggregation pipeline is replaced by the bound
  scalar, keeping its type. Injection succeeds exactly when every placeholder
  is bound. When it fails, the error names the first unbound placeholder in
  document order. The result keeps the pipeline's shape, and it is the only
  document that has that shape and the resolved leaves. Every documented
  scenario is proved exactly.
- **Query execution variables** (`QueryVariables`, `QueryVariablesExamples`).
  The supplied variables are valid exactly when each declared variable is
  present and has its declared type. A rejection is answered with status 200
  and a single error naming the variable and the reason: `Required`, or
  `Expected <type>, received <kind>`. A `null` value counts as missing, so it
  is reported as `Required` (tests/queries-variables.test.ts:103-121).
- **Route guards** (`Routes`). The schemas and admin-accounts controllers are
  modelled as sequences of steps: validators, token verification, the
  capability guard (command, roles and policy), schema ownership, and the
  service. The steps run in order and stop at the first that fails. Proved:
  - the service runs iff every earlier step passed;
  - ownership guards `remove`, `metadata`, `createIndex` and `dropIndex`, and
    not `list` or `add`;
  - the root account can only `create` on the admin routes;
  - an index name shorter than 4 UTF-16 code units is refused first;
  - success statuses are as listed: 201, 204 or 200;
  - `add` records the caller as the owner, whatever the payload says.

Fallible operations return `Result` values. I/O is replaced by parameters:
- a store fault stands for a missing collection or a driver failure;
- the clock value is given as `now`;
- the key derivation is the function `fromSecretKey`;
- the URL validator is the predicate `isUrl`.

## Model

| member | source | states |
|---|---|---|
| AccountsRepository.ToOrganizationAccountDocument | src/accounts/accounts.repository.ts:17-38 | The new document is an organization keyed by the DID, with the request's key and name. It is created and updated at the same instant. It has no schemas and no queries. Its subscription is active iff the network is testnet. |
| AccountsRepository.FaultError | src/accounts/accounts.repository.ts:44-53 | A missing collection gives PrimaryCollectionNotFound(accounts). A driver failure gives DatabaseError carrying the operation's name. |
| AccountsRepository.Repository.Insert | src/accounts/accounts.repository.ts:40-57 | A fault leaves the store alone and reports its error. A duplicate id fails with DatabaseError("insert") and leaves the store alone. Otherwise exactly the new document is added. The cache is untouched. |
| AccountsRepository.Repository.FindByIdWithCache | src/accounts/accounts.repository.ts:59-95 | A cache hit is returned and nothing changes. On a miss, a fault is reported, and an absent id gives DocumentNotFound(accounts, id). A stored document is returned and cached under its id. A success always carries the requested id. Cache agreement is preserved. |
| AccountsRepository.WithoutOrganization | src/accounts/accounts.repository.ts:136-139 | The delete filter removes the key only if it names an organization. Every other entry stays. Keying by id is preserved. |
| AccountsRepository.Repository.DeleteOneById | src/accounts/accounts.repository.ts:129-165 | A fault leaves everything unchanged. Otherwise the store becomes WithoutOrganization, and the id misses in the cache afterwards even when nothing was deleted. Cache agreement is preserved. |
| AccountsRepository.Matched | src/accounts/accounts.repository.ts:175-178 | The matched set is exactly the organizations whose id is listed. |
| AccountsRepository.Changed | src/accounts/accounts.repository.ts:179-181 | The modified set is exactly the matched documents whose subscription differs from the new value. |
| AccountsRepository.WithSubscription | src/accounts/accounts.repository.ts:175-181 | The key set is unchanged. Every matched document gets subscription.active set, and its other fields are kept. Unmatched documents are untouched. |
| AccountsRepository.WithSubscriptionIdempotent | src/accounts/accounts.repository.ts:179-181 | Applying the update twice equals applying it once. A repeated update modifies nothing. |
| AccountsRepository.WithSubscriptionIdsAsSet | src/accounts/accounts.repository.ts:176 | Only the set of listed ids matters: order and repetition do not. |
| AccountsRepository.Repository.SetSubscriptionState | src/accounts/accounts.repository.ts:167-209 | A fault changes nothing. Otherwise the store becomes WithSubscription, the result counts Matched and Changed, and every listed id is tainted, so it misses in the cache. Cache agreement is preserved. |
| AccountsRepository.WithPublicKey | src/accounts/accounts.repository.ts:219-225 | Only an organization with that id gets the new key. Everything else is kept. |
| AccountsRepository.WithPublicKeyRestores | src/accounts/accounts.repository.ts:223-225 | Setting the old key back restores the store exactly. |
| AccountsRepository.Repository.SetPublicKey | src/accounts/accounts.repository.ts:211-249 | A fault changes nothing. Otherwise the store becomes WithPublicKey. The counts are 0/0 when no organization matches, 1/0 when the key is unchanged, and 1/1 otherwise. The cache is untouched. |
| AccountsRepository.Repository.DeleteOneByIdSparingRoot | src/accounts/accounts.repository.ts:129-165 | The intended delete. The store changes exactly as in DeleteOneById. The root account's DID keeps its cache entry, and any other id misses afterwards. Cache agreement is preserved. |
| AccountsRepository.Repository.SetSubscriptionStateSparingRoot | src/accounts/accounts.repository.ts:167-209 | The intended subscription update. The store and the counts are as in SetSubscriptionState. Every listed id but the root's is tainted and misses, and the root's lookup is unchanged. Cache agreement is preserved while no organization is stored under the root's DID. |
| AccountsRepository.Repository.SetPublicKeyTainting | src/accounts/accounts.repository.ts:211-249 | The intended key rotation. The store and the counts are as in SetPublicKey. A successful rotation of any id but the root's taints it, so it misses. Cache agreement is preserved, which SetPublicKey does not promise, unless the rotated id is the root's DID and an organization is stored under it. |
| AccountCache.Cache.Lookup | src/accounts/accounts.repository.ts:66-70 | `get` hits iff the key is present and not tainted, and it returns the stored value. |
| AccountCache.Cache.Set | src/accounts/accounts.repository.ts:93 | The entry is replaced and its taint cleared: the key now hits with the new value. |
| AccountCache.Cache.Delete | src/accounts/accounts.repository.ts:163 | The entry is removed, and the key misses. |
| AccountCache.Cache.Taint | src/accounts/accounts.repository.ts:205-207 | The entries are kept, the key is marked, and it misses. |
| AccountCache.Cache.constructor | src/env.ts:116 | A new cache is empty. |
| Env.EnabledFeatures | src/env.ts:98-100 | An unset or empty variable gives no features. Otherwise the comma-free pieces join back to the variable. |
| Env.JoinSplit | src/env.ts:99 | Splitting on commas and joining with commas gives back the string. |
| Env.SplitJoin | src/env.ts:99 | Splitting the join of comma-free pieces gives back the pieces. |
| Env.HasFeatureFlag | src/env.ts:135-140 | True iff the flag's name is one of the enabled features. |
| Env.FlagFromVariable | src/env.ts:135-140 | For a non-empty variable, a flag is on iff its name is one of the comma-separated pieces. |
| Env.NumberOf | src/env.ts:105-107 | Unset gives NaN (None). A value that is empty or only white space gives 0. |
| Env.TrimIgnoresSpace | src/env.ts:105-107 | White space around a string that neither starts nor ends with white space is removed, and nothing else. |
| Env.NumberOfTrims | src/env.ts:105-107 | White space around a numeral does not change its value. |
| Env.NumberOfInteger | src/env.ts:105-107 | Decimal digits with no sign, a `+` or a `-`, and any white space around them, give their value, negated for `-`. |
| Env.UnsignedNumeralWithPoint | src/env.ts:105-107 | A numeral with a point reads all its digits as the mantissa. The number of digits after the point is subtracted from the exponent. |
| Env.UnsignedNumeralWithoutPoint | src/env.ts:105-107 | A numeral without a point reads its digits as the mantissa, and the exponent part as the exponent. |
| Env.NumeralValueVia | src/env.ts:105-107 | A numeral with no sign, a `+` or a `-` gives its scaled value, negated for `-`. |
| Env.SignedWithPoint | src/env.ts:105-107 | A signed decimal numeral with a point is its digits read as one integer, scaled by the exponent less the number of fraction digits, negated when the sign is `-`. |
| Env.DecimalWithPoint | src/env.ts:105-107 | An unsigned numeral string with a point and a non-empty whole part has that value, unnegated. |
| Env.ScaledIntegerIsExact | src/env.ts:41-43 | A scaled numeral is always an integer when the scale is non-negative. When the scale is negative, it is the integer b exactly when b·10^-scale is the mantissa. Its sign is the numeral's sign. |
| Env.UnshiftUndoesShift | src/env.ts:41-43 | Dropping k trailing zeros gives b exactly when appending k zeros to b gives back the number. |
| Env.NumeralWithPrefix | src/env.ts:105-107 | `0x`, `0o` or `0b` followed by digits of that base gives their value. |
| Env.SignedPrefixIsNaN | src/env.ts:105-107 | A sign before a `0x`, `0o` or `0b` prefix gives NaN. |
| Env.PortWithSpaceAndSign | src/env.ts:105-107 | `Number("\t+8080\n")` is 8080. |
| Env.PortWithPoint | src/env.ts:105-107 | `Number("8080.0")` is 8080. |
| Env.PortWithExponent | src/env.ts:105-107 | `Number("8.08e3")` is 8080. |
| Env.PortInHex | src/env.ts:105-107 | `Number("0x1F90")` is 8080. |
| Env.FractionIsNotInteger | src/env.ts:41-43 | `Number("8080.5")` is no integer, so `int()` rejects it. |
| Env.SignedHexIsNaN | src/env.ts:105-107 | `Number("-0x1F90")` is NaN. |
| Env.InfinityIsNotInteger | src/env.ts:41-43 | `Number("Infinity")` is no integer, so `int()` rejects it. |
| Utf16.Length | src/env.ts:33-39 | zod's `length` counts at least one and at most two code units per character. |
| Utf16.LengthOfBmp | src/env.ts:33-39 | On characters of the Basic Multilingual Plane the UTF-16 length is the number of characters. |
| Utf16.LengthOfConcat | src/env.ts:33-39 | The length of a concatenation is the sum of the lengths. |
| Utf16.AstralCountsTwice | src/schemas/schemas.controllers.ts:210 | Two emoji are four code units, so they pass a `min(4)` check. |
| Env.InputOf | src/env.ts:94-108 | The schema input takes the split features and the ports as `Number()` values. Each of the other eight variables is passed through unchanged. |
| Env.LogLevelNamed | src/env.ts:15 | A name is accepted iff it is one of debug, info, warn and error. |
| Env.Failing | src/env.ts:32-44 | The listed fields are exactly the schema fields that fail their constraint. |
| Env.Settled | src/env.ts:32-44 | An input every field of which is accepted settles to a configuration that satisfies the schema and carries each input value. |
| Env.ParseEnvVars | src/env.ts:32-44 | Parsing succeeds iff every field meets its constraint: names of at least 4 UTF-16 code units, a `mongodb` URI prefix, a known network and log level, a secret key of at least 64 code units, a URL endpoint, and positive integer ports. The result satisfies the schema and carries the inputs. A failure lists exactly the failing fields. |
| Env.RootDocument | src/env.ts:117-121 | The root document is a root account with the node's DID and public key. |
| Env.LoadBindings | src/env.ts:91-133 | An override is used verbatim. Otherwise the result succeeds iff parsing does, with the parsed config or the parse errors. The node identity comes from the secret key, and the endpoint is the configured one. The fresh accounts cache holds exactly the root document, with an unlimited lifetime. |
| RootAccountLifecycle.RootServedAfterBootstrap | src/env.ts:115-122 | After bootstrap, the root DID is found from the cache even though it is not in the store. |
| RootAccountLifecycle.DeleteEvictsRoot | src/accounts/accounts.repository.ts:163 | After deleteOneById on the root DID, which is not in the store, the root lookup fails with DocumentNotFound(accounts, did). |
| RootAccountLifecycle.SubscriptionUpdateTaintsRoot | src/accounts/accounts.repository.ts:205-207 | After a subscription update listing the root DID, the root lookup fails with DocumentNotFound(accounts, did). |
| RootAccountLifecycle.InsertUnderRootDidKeepsRoot | src/accounts/accounts.repository.ts:40-57 | Inserting an organization under the root DID succeeds. The lookup that follows still answers with the root document, not with the organization. |
| RootAccountLifecycle.DeleteSparingRootKeepsRoot | src/accounts/accounts.repository.ts:129-165 | With the root exempt from eviction, a delete by the root DID leaves the root still served, whatever the store holds. |
| RootAccountLifecycle.SubscriptionUpdateSparingRootKeepsRoot | src/accounts/accounts.repository.ts:167-209 | With the root exempt from tainting, an update listing the root DID leaves the root still served. |
| RootAccountLifecycle.KeyRotationServesOldKey | src/accounts/accounts.repository.ts:211-249 | Take a cached organization and rotate its key. The next lookup answers with the old document, whose key differs from the stored one. |
| RootAccountLifecycle.KeyRotationIsServed | src/accounts/accounts.repository.ts:211-249 | With the rotation tainting the id, the next lookup answers with the stored document carrying the new key. |
| PipelineInjection.PlaceholderName | tests/inject-variable.pipeline.test.ts:5-20 | A string is a placeholder iff it starts with `##`; its name is the rest. |
| PipelineInjection.InjectSucceedsIffAllBound | tests/inject-variable.pipeline.test.ts:51-62 | Injection succeeds iff every placeholder name in the pipeline is bound. |
| PipelineInjection.InjectReportsFirstMissing | tests/inject-variable.pipeline.test.ts:51-62 | A failure names the first unbound placeholder in document order. |
| PipelineInjection.InjectPreservesSkeleton | tests/inject-variable.pipeline.test.ts:64-126 | The result has the same keys, nesting, and array lengths and order as the input. |
| PipelineInjection.InjectResolvesLeaves | tests/inject-variable.pipeline.test.ts:22-49 | Each leaf of the result is the bound scalar, keeping its type, for a placeholder, and the original leaf otherwise. |
| PipelineInjection.InjectIsUnique | tests/inject-variable.pipeline.test.ts:128-183 | The result is the only document with the input's shape and the resolved leaves. |
| PipelineInjection.InjectFullyBoundIsIdentity | tests/inject-variable.pipeline.test.ts:64-126 | A pipeline without placeholders comes back unchanged. |
| PipelineInjection.InjectArray | tests/inject-variable.pipeline.test.ts:64-126 | An array whose elements all inject becomes the array of the injected elements. |
| PipelineInjection.InjectObject | tests/inject-variable.pipeline.test.ts:128-183 | An object whose values all inject keeps its keys, with the injected values. |
| PipelineInjection.InjectArrayFails | tests/inject-variable.pipeline.test.ts:51-62 | An array fails with the error of its first failing element. |
| PipelineInjection.InjectObjectFails | tests/inject-variable.pipeline.test.ts:51-62 | An object fails with the error of its first failing value. |
| PipelineInjectionExamples.ReplacesSimpleVariables | tests/inject-variable.pipeline.test.ts:5-20 | Under any variables binding `address` to "abc123", the result is exactly the expected `$match` stage. |
| PipelineInjectionExamples.ReplacesMultipleVariableTypes | tests/inject-variable.pipeline.test.ts:22-49 | Under the test's three bindings, a string, a number and a boolean are substituted with their own types, giving exactly the expected stage. |
| PipelineInjectionExamples.MissingVariableFails | tests/inject-variable.pipeline.test.ts:51-62 | With `address` unbound, the pipeline fails with MissingVariable("address"). |
| PipelineInjectionExamples.MissingVariableMessage | tests/inject-variable.pipeline.test.ts:59-61 | The error text is "Missing pipeline variable: ##address". |
| PipelineInjectionExamples.HandlesComplexPipeline | tests/inject-variable.pipeline.test.ts:64-126 | Under any variables carrying the test's six bindings, the `$match`/`$lookup`/`$unwind`/`$group` pipeline becomes exactly the expected one. |
| PipelineInjectionExamples.HandlesDeeplyNestedStructures | tests/inject-variable.pipeline.test.ts:128-183 | Under any variables carrying the test's five bindings, the nested `$and`/`$or`/`$in` pipeline becomes exactly the expected one. |
| QueryVariables.CheckVariable | tests/queries-variables.test.ts:82-161 | A variable passes iff it is present and has the declared type. Absent or null gives Required. Any other wrong value gives "Expected <type>, received <kind>". |
| QueryVariables.Validate | tests/queries-variables.test.ts:52-161 | Validation succeeds iff every declared variable passes. The bindings are then exactly the declared names, with the supplied values. A failure is the first failing variable, in declaration order. |
| QueryVariables.ExecuteQuery | tests/queries-variables.test.ts:52-161 | The status is always 200. Any errors body holds exactly one message, and a rejection gives the validation message. The pipeline is submitted iff the variables are accepted and every placeholder is declared, and the submitted pipeline keeps the stored one's shape, with every leaf resolved under the validated bindings. By `InjectIsUnique` this makes it exactly the stored pipeline with the variables substituted. |
| QueryVariables.MessageNamesKeyAndReason | tests/queries-variables.test.ts:96-100 | The error message contains "Invalid query execution variables", the variable's name and the reason. |
| QueryVariables.ExpectedNamesType | tests/queries-variables.test.ts:99-100 | A type rejection's reason contains "Expected " followed by the declared type. |
| QueryVariablesExamples.ExecutesWithVariables | tests/queries-variables.test.ts:52-65 | Correct variables are accepted, and the query is submitted with status 200. |
| QueryVariablesExamples.RejectsObjectValue | tests/queries-variables.test.ts:82-101 | An object for the string `status` is rejected with status 200. The one error names `status` and "Expected string". |
| QueryVariablesExamples.RejectsNullValue | tests/queries-variables.test.ts:103-122 | A null `startDate` is rejected with one error naming it and "Required". |
| QueryVariablesExamples.RejectsAbsentValue | tests/queries-variables.test.ts:124-161 | An undefined or function-valued `startDate`, which does not reach the body, is rejected with one error naming it under "Invalid query execution variables". |
| Routes.GuardOf | src/schemas/schemas.controllers.ts:29-35 | Schema routes require command nil/db/schemas and the organization role. Admin routes require nil/db/admin, and only `create` also admits root. |
| Routes.PolicyAccepts | src/schemas/schemas.controllers.ts:34 | Every guard's validate hook accepts. |
| Routes.Plan | src/schemas/schemas.controllers.ts:98-113 | The steps are the payload and parameter validators, then token verification, then the capability check, then the ownership check on the routes that have one, then the service. The service is the last step and the only service step. |
| Routes.SuccessStatus | src/schemas/schemas.controllers.ts:74-113 | 201 exactly for add, createIndex and admin create. 204 exactly for remove, dropIndex and admin remove. 200 for the rest. |
| Routes.RunSteps | src/admin/admin.controllers.accounts.ts:35-50 | The trace is a prefix of the steps. The run completes iff every step passes, and it then answers the route's success status. Otherwise it stops at the last step traced, which failed after all earlier ones passed. |
| Routes.RanMeansEarlierPassed | src/admin/admin.controllers.accounts.ts:64-79 | Any step that ran had every earlier step pass. |
| Routes.ServiceRunsIffStepsPass | src/admin/admin.controllers.accounts.ts:64-79 | The service runs iff every step before it in the plan passes. |
| Routes.FailingStepStopsService | src/admin/admin.controllers.accounts.ts:64-79 | Any step of the plan that fails stops the request there, and the service does not run. |
| Routes.OwnershipGuardsService | src/schemas/schemas.controllers.ts:107-113 | On a route with an ownership step, the service runs only for the schema's owner, and the route is one of remove, metadata, createIndex and dropIndex. |
| Routes.OwnershipRoutes | src/schemas/schemas.controllers.ts:26-228 | A route's plan has an ownership step if and only if the route is remove, metadata, createIndex or dropIndex. |
| Routes.ListAndAddSkipOwnership | src/schemas/schemas.controllers.ts:37-79 | `list` and `add` have no ownership step. |
| Routes.RoleOutsideGuardStops | src/schemas/schemas.controllers.ts:29-40 | A subject whose role is not in the guard stops before the service. |
| Routes.RootOnlyCreates | src/admin/admin.controllers.accounts.ts:56-62 | The root account reaches the service of no admin route other than `create`. |
| Routes.ShortIndexNameStopsFirst | src/schemas/schemas.controllers.ts:205-212 | On dropIndex, an index name shorter than 4 UTF-16 code units stops at parameter validation, the first step. |
| Routes.CompletedStatus | src/admin/admin.controllers.accounts.ts:43-47 | A completed run went through the whole plan and answers the route's success status. |
| Routes.WithOwner | src/schemas/schemas.controllers.ts:75-78 | An object spread puts `owner` last when it is new. Otherwise it keeps its position with the new value, and every other entry is kept. |
| Routes.AddRecordsCaller | src/schemas/schemas.controllers.ts:75-78 | The recorded schema has an `owner` equal to the caller, and every `owner` entry is the caller. |

## Left out

- MongoDB, the Effect runtime, Hono routing, logging and database initialisation: I/O. A store fault parameter stands for a missing collection or a driver failure.
- The cache's time-to-live expiry, its clock and its capacity: the cache source is not part of this model. The model keeps the lifetime tag and the rule that a deleted or tainted key misses.
- `new Date()`: the clock becomes the `now` parameter.
- `Identity.fromSk` key derivation, NUC token signature checks and the `url()` validator: these are cryptography and zod internals. They become the parameters `fromSecretKey`, `subject`/`tokenGrants` and `isUrl`. Key derivation (src/env.ts:111) and database initialisation (src/env.ts:129-130) are assumed not to fail, although either can reject in the program; this is why `Env.LoadBindings` succeeds exactly when parsing does.
- `findOneOrganization`: it has an arbitrary filter over documents, and nothing in the modelled flows calls it.
- `enforceSchemaOwnership` and the service functions called by the controllers: they are outside this model. Their outcomes are the request fields `ownsSchema` and `serviceSucceeds`.
- The payload and parameter schemas other than the index-name length: their verdicts are the fields `payloadValid` and `paramsValid`.
- zod's error message texts and the HTTP error bodies of the guards.
- `PUBLIC_KEY_LENGTH` (src/env.ts:14): no constraint in the schema uses it.
- `mqUri`: it is optional and unconstrained, so it is carried through and never checked.
- Env.NumberOf: computes a numeral's value exactly instead of as a 64-bit float. So a numeral that rounds to an integer, such as `8080.00000000000000001`, is taken as a fraction and rejected, though the program accepts it. A numeral that overflows to Infinity, such as `1e400`, is taken as an integer and accepted, though the program rejects it. Integers above 2^53 keep their exact value instead of the rounded one.
- `injectVariablesIntoAggregation` and the query-execution service: their source is not part of this model. Their behaviour is taken from the two test files. Undeclared supplied variables are dropped, and a pipeline placeholder with no declared variable stops execution with a 200 error body, which is an assumption.
- QueryVariables.ExecuteQuery: does not state the error text when an injection fails after validation; it only states that exactly one error is returned.
- AccountsRepository.Repository.DeleteOneById: returns unit rather than the driver's delete result, which the source passes through unused. `result === null` never happens with the driver, so it is not modelled.
- AccountsRepository.Repository.SetSubscriptionState and AccountsRepository.Repository.SetPublicKey: the `result === null` → DocumentNotFound branches (src/accounts/accounts.repository.ts:195-204 and 238-247) are not modelled. The driver's `updateMany` and `updateOne` never resolve to null, so a store call either faults or returns counts.
- Interleaving: each repository method is modelled as one atomic step. In the source, the store call is awaited before the cache is updated (src/accounts/accounts.repository.ts:76-93, 146-163, 188-207), so concurrent requests can interleave between the two. For example, a lookup miss can cache a document that a concurrent `setSubscriptionState` has just tainted. Cache agreement is therefore proved for sequential runs only.
- AccountCache.Cache.Delete and AccountCache.Cache.Taint: the cache's source is not part of this model. Deleting or tainting a `CACHE_FOREVER` entry, such as the root account's, is assumed to act as on any other entry. The first two rows under "## Findings" depend on this assumption.
- AccountCache.Cache.Set: the cache's source is not part of this model. `set` is assumed to clear a taint on its key. The post-miss `cache.Lookup(id) == Some(store[id])` of `Repository.FindByIdWithCache` depends on this assumption.
- Floating-point numbers in JSON: numbers are integers.
- JSON documents, query variables and route parameters use `string`. Only the lengths that zod checks are counted in UTF-16 code units (`Utf16.Length`).

## Findings

The root account is meant to be exempt from deletion and from taints: it is never stored and exists only in the cache. The accounts store is meant to be the source of truth behind the cache.

| source | as written | input that shows it | evidently intended | confidence | as-written member | corrected member |
|---|---|---|---|---|---|---|
| src/accounts/accounts.repository.ts:163 | `deleteOneById` deletes the cache entry of any id, the root account's DID included | a call of this `deleteOneById` with the root account's DID; its callers are not part of this model, and the admin remove route reaches a different repository (src/admin/admin.services.ts:9, 29) | the root's cache entry is kept | medium; not executed | RootAccountLifecycle.DeleteEvictsRoot | RootAccountLifecycle.DeleteSparingRootKeepsRoot |
| src/accounts/accounts.repository.ts:205-207 | `setSubscriptionState` taints every listed id, the root account's DID included | a call of this `setSubscriptionState` listing the root account's DID; the admin route reaches it through `AccountService.setSubscriptionState` (src/admin/admin.controllers.accounts.ts:128), which is not part of this model | every listed id but the root's is tainted | medium; not executed | RootAccountLifecycle.SubscriptionUpdateTaintsRoot | RootAccountLifecycle.SubscriptionUpdateSparingRootKeepsRoot |
| src/accounts/accounts.repository.ts:211-249 | `setPublicKey` leaves the cache alone, so a cached organization keeps its old key | a lookup, then a key rotation, then a lookup of the same organization | the rotated id is tainted, so the next lookup reads the new key | medium; not executed | RootAccountLifecycle.KeyRotationServesOldKey | RootAccountLifecycle.KeyRotationIsServed |
