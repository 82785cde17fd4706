# parser-server core, modelled in Dafny

This project models the sequential core of parser-server, a TypeScript port of
Parse Server. It covers five areas:

- **Live-query connection state.** Object ids (`className:objectId`). A client's
  subscription-info map and the event messages it sends down its socket,
  including the field projection. The session-token cache in front of the
  `_Session` lookup.
- **The two in-process channel buses.** The message-queue adapter keeps one
  module-wide `channel → handler` map. The pub/sub adapter keeps one map per
  subscriber. Both sit over a shared event emitter, modelled as a class with a
  listener map and a log of the calls it has made.
- **The caches.** The TTL key/value store, with its pending deletion timers.
  The schema cache, with its disabled-when-ttl-is-0 rule and its fallback
  lookup into the main schema list.
- **Validators, mappings and parsers.**
  - The class-name, field-name and permission-key validators. The class-level
    permission (CLP) checker.
  - The Postgres type map and value transforms. The Postgres connection-URI
    options and query-string parser.
  - The OAuth 1.0 string helpers: encoding, parameter string, signature base
    string and signing key. `buildRequest`'s writes into the shared
    `oauthParams` object, and the nonce.
  - The command-line option parsers. `removeTrailingSlash`. The random-id
    helpers.
- **Configuration selection.** The Twitter adapter's choice among several
  configurations. The command-line option bookkeeping: environment, then
  config file, then defaults, with the first writer winning. `loadAdapter`'s
  dispatch on a descriptor's shape. The `Config` constructor.

JavaScript values are the datatype `JsValue.Value`. Objects are ordered
property lists in insertion order, so `Object.keys` order, overwriting and the first error thrown
are all modelled. A throw is the `Err` case of `Results.Result`. Several things
are parameters:

- the clock (`now`);
- random bytes and `Math.random` draws;
- `require`, `JSON.parse`, and calling or constructing a function;
- the answer of the `_Session` query;
- an app-cache entry.

Promise chains are flattened into their result or error.

Classes model the objects the code updates in place:

- `Client` and its socket;
- `SessionTokenCache`;
- the event emitter, bus, consumer, subscriber and publisher;
- `InMemoryCache`, `SchemaCache` and its cache store;
- the commander `Command`;
- the OAuth client and its shared parameter object;
- `Config`.

Their methods state the whole new state. The pure parts are functions, with
lemmas relating each to an inverse, a reference definition or the invariant it
keeps.

## Model

| member | source | states |
|---|---|---|
| LiveQueryId.ToString | src/LiveQuery/Id.ts:18-20 | the text is the class name, one `:`, then the object id |
| LiveQueryId.FromString | src/LiveQuery/Id.ts:5-11 | accepted exactly when the string holds one `:`; otherwise a TypeError with the fixed message |
| LiveQueryId.FromStringToString | src/LiveQuery/Id.ts:5-20 | any string with exactly one `:` is parsed and printed back unchanged |
| LiveQueryId.ToStringFromString | src/LiveQuery/Id.ts:5-20 | names without `:` survive printing then parsing |
| LiveQueryId.EmptyPartsAccepted | src/LiveQuery/Id.ts:7-10 | only the part count is checked: `":"` gives two empty names |
| LiveQueryClient.Client.constructor | src/LiveQuery/Client.ts:42-46 | a new client has its id and socket, no roles and no subscription info |
| LiveQueryClient.Client.AddSubscriptionInfo | src/LiveQuery/Client.ts:57-59 | the info is stored under the request id, overwriting; every other entry reads as before |
| LiveQueryClient.Client.GetSubscriptionInfo | src/LiveQuery/Client.ts:61-63 | an unknown request id reads `undefined` |
| LiveQueryClient.Client.DeleteSubscriptionInfo | src/LiveQuery/Client.ts:65-67 | answers whether the entry existed and removes only that entry |
| LiveQueryClient.Client.PushResponse | src/LiveQuery/Client.ts:28-31 | appends exactly the one frame to the socket |
| LiveQueryClient.Client.PushError | src/LiveQuery/Client.ts:33-40 | sends one message whose keys are exactly `op`, `error`, `code`, `reconnect`, in that order; `reconnect` defaults to true |
| LiveQueryClient.ErrorMessage | src/LiveQuery/Client.ts:34-39 | the error message has exactly the four keys, in literal order |
| LiveQueryClient.Client.PushEvent | src/LiveQuery/Client.ts:69-87 | sends the event message when it can be built, and otherwise throws and sends nothing |
| LiveQueryClient.Header | src/LiveQuery/Client.ts:70-76 | the message starts with `op` and `clientId`, has `requestId` exactly when one was given, and no `object` yet |
| LiveQueryClient.EventResponseSpec | src/LiveQuery/Client.ts:70-84 | every event message carries `op` and `clientId`; `requestId` exactly when one was given; `object` exactly when a record was given, projected on the fields stored for that request |
| LiveQueryClient.NoInfoSendsRecord | src/LiveQuery/Client.ts:78-84 | with no stored info for the request, the record goes out whole |
| LiveQueryClient.FieldKeys | src/LiveQuery/Client.ts:98-100 | `for ... of` over the fields works on arrays and strings only; an array gives its elements' string forms |
| LiveQueryClient.CopyFieldsSpec | src/LiveQuery/Client.ts:95-100 | copying keys adds exactly those keys, each holding the record's value, except a `__proto__` the object does not own, which the inherited accessor takes and which adds no property; throws on a null record |
| LiveQueryClient.ProjectionSpec | src/LiveQuery/Client.ts:89-102 | with no fields the record is returned itself; with fields the result has exactly the default fields and the requested ones other than `__proto__`, each holding the record's value |
| LiveQueryClient.ProjectionChosen | src/LiveQuery/Client.ts:93-101 | for a record with members and iterable fields, the projection holds exactly the default and requested keys other than `__proto__`, each with the record's value |
| LiveQueryClient.CopyOntoFresh | src/LiveQuery/Client.ts:94-100 | copying onto an object without an own `__proto__` sets every listed key but `__proto__` to the record's value |
| LiveQuerySessions.UserForSessionToken | src/LiveQuery/SesstionTokenCache.ts:5-15 | a query error is passed on; no session gives the fixed message; otherwise the session's `user` |
| LiveQuerySessions.UserIdOfFoundSession | src/LiveQuery/SesstionTokenCache.ts:5-15 | a found session with a user object yields that user's `id` |
| LiveQuerySessions.NoSessionFails | src/LiveQuery/SesstionTokenCache.ts:10-12 | `undefined` and `null` sessions fail with 'No session found for session token' |
| LiveQuerySessions.SessionTokenCache.constructor | src/LiveQuery/SesstionTokenCache.ts:20-25 | an empty cache whose size and age bounds are the arguments (defaults 10000 and 30*24*62*62*1000) |
| LiveQuerySessions.SessionTokenCache.Evict | src/LiveQuery/SesstionTokenCache.ts:21-24 | the LRU dropping a token removes only that token |
| LiveQuerySessions.SessionTokenCache.GetUserId | src/LiveQuery/SesstionTokenCache.ts:27-46 | an empty token is refused without a lookup; a truthy cached id is returned without a lookup; otherwise the lookup decides, and only its success is cached |
| EventEmitterMQ.Bus.constructor | src/Adapters/MessageQueue/EventEmitterMQ.ts:3-4 | one fresh emitter with no listeners and an empty module map |
| EventEmitterMQ.Bus.Unsubscribe | src/Adapters/MessageQueue/EventEmitterMQ.ts:6-13 | an unknown channel changes nothing; a known one loses its handler from the emitter and the map; no other channel changes |
| EventEmitterMQ.Bus.Subscribe | src/Adapters/MessageQueue/EventEmitterMQ.ts:35-42 | the channel ends with exactly the one new handler, in the map and on the emitter, whoever subscribed before |
| EventEmitterMQ.Consumer.Subscribe | src/Adapters/MessageQueue/EventEmitterMQ.ts:35-42 | a consumer's subscribe replaces any handler on the channel, including another consumer's; nothing is delivered |
| EventEmitterMQ.Consumer.Unsubscribe | src/Adapters/MessageQueue/EventEmitterMQ.ts:44-46 | the channel is left with no handler and no listener; others are unchanged, and nothing is delivered |
| EventEmitterMQ.Publisher.Publish | src/Adapters/MessageQueue/EventEmitterMQ.ts:22-24 | every listener on the channel is called once, in order, and listeners are unchanged |
| EventEmitterMQ.PublishReachesLastSubscriber | src/Adapters/MessageQueue/EventEmitterMQ.ts:35-42 | a publish reaches exactly the consumer that subscribed to the channel last, once, or nobody |
| EventEmitterMQ.DeliveriesAppend | src/Adapters/MessageQueue/EventEmitterMQ.ts:37-39 | the deliveries of two call sequences are the deliveries of each, in order |
| EventEmitterPubSub.Subscriber.constructor | src/Adapters/PubSub/EventEmitterPubSub.ts:21-25 | each subscriber starts with its own empty map on the shared emitter |
| EventEmitterPubSub.Subscriber.Subscribe | src/Adapters/PubSub/EventEmitterPubSub.ts:27-33 | always adds a new listener (the channel's list grows by one) and overwrites the map entry; every listener stays registered for the channel it listens on |
| EventEmitterPubSub.Subscriber.Unsubscribe | src/Adapters/PubSub/EventEmitterPubSub.ts:35-41 | changes nothing: a subscribed channel returns early, an unsubscribed one throws from `removeListener(channel, undefined)` |
| EventEmitterPubSub.SubscribedStaysListening | src/Adapters/PubSub/EventEmitterPubSub.ts:35-38 | after unsubscribing, a subscribed channel still has this subscriber's listener |
| EventEmitterPubSub.Publisher.Publish | src/Adapters/PubSub/EventEmitterPubSub.ts:12-14 | every registration on the channel is called once, in order |
| EventEmitterPubSub.CallsToCount | src/Adapters/PubSub/EventEmitterPubSub.ts:27-33 | a handler is called as many times as it is registered, so subscribing twice delivers twice |
| EventEmitterPubSub.PublishStaysOnChannel | src/Adapters/PubSub/EventEmitterPubSub.ts:12-14 | with every listener on its own channel, as `Subscribe` keeps it, no listener of another channel is called |
| InMemoryCacheModel.InMemoryCache.constructor | src/Adapters/Cache/InMemoryCache.ts:15-18 | an empty store with the given ttl, default 5000 ms |
| InMemoryCacheModel.InMemoryCache.Get | src/Adapters/Cache/InMemoryCache.ts:20-35 | an absent key gives `null`; a live record gives its value; an expired one gives `null` and only its key is deleted |
| InMemoryCacheModel.InMemoryCache.Put | src/Adapters/Cache/InMemoryCache.ts:37-54 | stores the record with its expiry, and schedules its deletion unless it never expires; earlier timers stay pending |
| InMemoryCacheModel.ExpireFor | src/Adapters/Cache/InMemoryCache.ts:38-45 | a negative or NaN ttl never expires; otherwise the expiry is `now + ttl` |
| InMemoryCacheModel.TimerDelay | src/Adapters/Cache/InMemoryCache.ts:48-50 | the delay `setTimeout` actually waits: the ttl when in range, else 1 ms |
| InMemoryCacheModel.PutThenGet | src/Adapters/Cache/InMemoryCache.ts:20-54 | a value put with ttl `t` at `t0` reads back up to `t0 + t` and is gone after; a NaN or negative ttl never expires |
| InMemoryCacheModel.PutLeavesOthers | src/Adapters/Cache/InMemoryCache.ts:53 | a put leaves every other key reading as before |
| InMemoryCacheModel.InMemoryCache.Del | src/Adapters/Cache/InMemoryCache.ts:56-67 | an absent key changes nothing; otherwise its own timer is cancelled and only that key is removed |
| InMemoryCacheModel.InMemoryCache.Clear | src/Adapters/Cache/InMemoryCache.ts:69-71 | the store is empty; pending timers are not cancelled |
| InMemoryCacheModel.InMemoryCache.FireTimer | src/Adapters/Cache/InMemoryCache.ts:48-50 | a timer deletes whatever record holds its key now, even one put after the timer was set |
| SchemaCacheModel.TtlOf | src/Controllers/SchemaCache.ts:16-17 | a string ttl goes through base-10 `parseInt` (NaN is none); a number is kept |
| SchemaCacheModel.TtlStringEnabled | src/Controllers/SchemaCache.ts:17 | a string ttl enables the cache exactly when it parses to a non-zero number |
| SchemaCacheModel.SchemaCache.constructor | src/Controllers/SchemaCache.ts:16-23 | the prefix is `__SCHEMA` with a single cache, else `__SCHEMA` plus `randomString(20)` as written, 20 characters when every drawn byte is below 128 |
| SchemaCacheModel.SchemaCache.Put | src/Controllers/SchemaCache.ts:25-29 | resolves to `undefined` and stores nothing |
| SchemaCacheModel.SchemaCache.GetAllClasses | src/Controllers/SchemaCache.ts:31-36 | `null` when disabled, else the main-schema entry |
| SchemaCacheModel.SchemaCache.SetAllClasses | src/Controllers/SchemaCache.ts:38-43 | `null` when disabled, else `undefined`, with nothing stored |
| SchemaCacheModel.SchemaCache.SetOnSchema | src/Controllers/SchemaCache.ts:45-50 | `null` when disabled, else `undefined`, with nothing stored |
| SchemaCacheModel.DisabledAnswersNull | src/Controllers/SchemaCache.ts:31-55 | with a falsy ttl, the four reads and writes answer `null` |
| SchemaCacheModel.SchemaCache.GetOneSchema | src/Controllers/SchemaCache.ts:52-71 | `null` when disabled; otherwise `null` or a truthy schema, the class's own truthy entry first |
| SchemaCacheModel.GetOneSchemaDirect | src/Controllers/SchemaCache.ts:56-59 | a truthy entry under the class's own key is the answer |
| SchemaCacheModel.GetOneSchemaFallback | src/Controllers/SchemaCache.ts:60-69 | otherwise a missing main list counts as empty and gives `null`; an error or no match in the list is passed on, or gives `null` |
| SchemaCacheModel.GetOneSchemaFromList | src/Controllers/SchemaCache.ts:60-66 | the first object of the main list with that class name is the answer |
| SchemaCacheModel.FindByClassName | src/Controllers/SchemaCache.ts:62-64 | a found element is in the list and has that class name |
| SchemaCacheModel.FindByClassNameFirst | src/Controllers/SchemaCache.ts:62-64 | `find` gives the first matching element |
| SchemaCacheModel.FindByClassNameNone | src/Controllers/SchemaCache.ts:62-64 | with no match `find` gives `undefined` |
| SchemaCacheModel.CacheStore.Del | src/Controllers/SchemaCache.ts:80 | deleting a key removes only that key |
| SchemaCacheModel.SchemaCache.Clear | src/Controllers/SchemaCache.ts:73-84 | deletes exactly the keys listed in the `__ALL_KEYS` object, and nothing without it |
| SchemaControllerModel.AnyMatchesSpec | src/Controllers/SchemaController.ts:151-154 | the `reduce` finds a match exactly when some pattern matches |
| SchemaControllerModel.AlnumRun | src/Controllers/SchemaController.ts:138 | the run of letters and digits from a position, and that it is maximal |
| SchemaControllerModel.VerifyPermissionKey | src/Controllers/SchemaController.ts:150-159 | accepts exactly a key starting with ten letters or digits, a `role:` key, `*` or `requiresAuthentication`; anything else throws INVALID_JSON |
| SchemaControllerModel.ValidatePointerFieldsOk | src/Controllers/SchemaController.ts:176-181 | every listed user field must name a column that is a Pointer to `_User` |
| SchemaControllerModel.ValidatePermissionsOk | src/Controllers/SchemaController.ts:186-193 | every key of an operation's permissions must be a permission key mapped to exactly `true` |
| SchemaControllerModel.ValidateOperationOk | src/Controllers/SchemaController.ts:166-193 | one operation passes exactly when it is valid as stated without the walk |
| SchemaControllerModel.ValidateOperationsOk | src/Controllers/SchemaController.ts:166-194 | the operations pass exactly when each one is valid |
| SchemaControllerModel.ValidateCLP | src/Controllers/SchemaController.ts:162-165 | falsy permissions pass |
| SchemaControllerModel.ValidateCLPSpec | src/Controllers/SchemaController.ts:162-195 | truthy permissions pass exactly when every operation is valid: one of the nine names, with user fields naming `_User` pointers and other operations mapping permission keys to `true` |
| SchemaControllerModel.ValidateOperationsFirstError | src/Controllers/SchemaController.ts:166-194 | the first invalid operation in key order decides the error |
| SchemaControllerModel.ValidateCLPAsWritten | src/Controllers/SchemaController.ts:162-195 | the code as written; falsy permissions pass |
| SchemaControllerModel.PermissionBranchAsWritten | src/Controllers/SchemaController.ts:186-193 | as written, the branch for ordinary operations always throws |
| SchemaControllerModel.ObjectKeysOfUndefined | src/Controllers/SchemaController.ts:186 | `Object.keys(undefined)` throws |
| SchemaControllerModel.AsWrittenPassesOnlyUserFields | src/Controllers/SchemaController.ts:166-194 | as written, only permissions naming nothing but the user-field operations can pass |
| SchemaControllerModel.PublicFindAsWritten | src/Controllers/SchemaController.ts:186 | `{find: {'*': true}}` throws a TypeError as written, and is accepted by the corrected rule |
| SchemaControllerModel.PublicFindRefused | src/Controllers/SchemaController.ts:186 | as written, `{find: {'*': true}}` fails with the `forEach is not a function` TypeError |
| SchemaControllerModel.PublicFindAccepted | src/Controllers/SchemaController.ts:166-193 | by the corrected rule, `{find: {'*': true}}` passes |
| SchemaControllerModel.JoinClassTestSpec | src/Controllers/SchemaController.ts:197 | the scan decides the join-table pattern `^_Join:[A-Za-z0-9]+:[A-Za-z0-9_]+` |
| SchemaControllerModel.ClassNameIsValid | src/Controllers/SchemaController.ts:199-209 | valid exactly for a listed system class, a join-table name or a valid field name |
| SchemaControllerModel.UnlistedSystemClasses | src/Controllers/SchemaController.ts:132-135 | `_Hooks` and `_GlobalConfig` have default columns but are refused as class names |
| SchemaControllerModel.UnderscoreNames | src/Controllers/SchemaController.ts:199-214 | a name starting with `_` is valid only as a system class or join table |
| SchemaControllerModel.FieldNameIsValidForClass | src/Controllers/SchemaController.ts:217-228 | valid exactly for a valid field name that is not a default column of `_Default`, of the class's table, or of the `Object.prototype` member the class is named after |
| SchemaControllerModel.InheritedColumns | src/Controllers/SchemaController.ts:224 | for a class named after a member of `Object.prototype`, the names `defaultColumns[className][name]` finds truthy: `name`, a non-zero `length`, the inherited methods, and `Object`'s `prototype` for `constructor` |
| SchemaControllerModel.DefaultColumnsRefused | src/Controllers/SchemaController.ts:21-36 | no class may take `objectId`, `createdAt`, `updatedAt` or `ACL`; `_User` may not take `email`, a custom class may |
| SchemaControllerModel.CustomClassFields | src/Controllers/SchemaController.ts:217-228 | a class without its own table refuses only invalid names, the shared and inherited columns, and the truthy properties of the prototype member it is named after |
| SchemaControllerModel.ConstructorClassFields | src/Controllers/SchemaController.ts:224 | `constructor` is a valid class name whose lookup finds `Object`, so `name`, `length` and `keys` are refused |
| SchemaControllerModel.ToStringClassFields | src/Controllers/SchemaController.ts:224 | for the class `toString`, `name` is refused and `length` (0) is not |
| PostgresStorageAdapterModel.ParseTypeToPostgresType | src/Adapters/Storage/Postgres/PostgressStorageAdapter.ts:21-41 | each known type maps to its column type; Array is `text[]` exactly for string contents, else `jsonb`; any other type throws the `no type for ... yet` text |
| PostgresStorageAdapterModel.ColumnTypesShared | src/Adapters/Storage/Postgres/PostgressStorageAdapter.ts:22-31 | only `jsonb` and `text` are shared by several Parse types |
| PostgresStorageAdapterModel.ComparatorsDistinct | src/Adapters/Storage/Postgres/PostgressStorageAdapter.ts:43-48 | exactly the four comparators, each with its own SQL operator |
| PostgresStorageAdapterModel.ToPostgresValue | src/Adapters/Storage/Postgres/PostgressStorageAdapter.ts:50-60 | a Date object gives its `iso`, a File object its `name`, anything else (arrays included) itself; `null` throws |
| PostgresStorageAdapterModel.TransformValue | src/Adapters/Storage/Postgres/PostgressStorageAdapter.ts:62-68 | a Pointer object gives its `objectId`, anything else (arrays included) itself; `null` throws |
| PostgresStorageAdapterModel.CLPTable | src/Adapters/Storage/Postgres/PostgressStorageAdapter.ts:71-87 | the six operations, in order, each with the same grant |
| PostgresStorageAdapterModel.GrantPasses | src/Adapters/Storage/Postgres/PostgressStorageAdapter.ts:71-86 | the first five entries of either table are valid CLP operations |
| PostgresStorageAdapterModel.CLPTablesRejected | src/Adapters/Storage/Postgres/PostgressStorageAdapter.ts:77 | both tables name `addFiled`, so the CLP validator refuses them |
| PostgresStorageAdapterModel.FirstFailingOperation | src/Controllers/SchemaController.ts:165-168 | operations are checked in key order, so a table whose first five pass fails exactly as its sixth does |
| PostgresConfigParserModel.ParseSegmentSpec | src/Adapters/Storage/Postgres/PostgresConfigParser.ts:49-50 | a segment splits at its first `=` into a decoded key and value; with no `=` the value is empty |
| PostgresConfigParserModel.ParseSegmentsSnoc | src/Adapters/Storage/Postgres/PostgresConfigParser.ts:48-52 | each further segment assigns its key on the result so far |
| JsValue.SetProperty | src/Adapters/Storage/Postgres/PostgresConfigParser.ts:50 | `p[key] = value` on an object inheriting from `Object.prototype`: the key becomes an own property holding the value, other keys unchanged, except an unowned `__proto__`, which adds nothing |
| PostgresConfigParserModel.ParseSegmentsNoProto | src/Adapters/Storage/Postgres/PostgresConfigParser.ts:46-52 | starting from `{}`, no query gives the result an own `__proto__` |
| PostgresConfigParserModel.AssignAllKeys | src/Adapters/Storage/Postgres/PostgresConfigParser.ts:48-52 | assigning pairs in turn adds exactly the pairs' settable keys |
| PostgresConfigParserModel.LastSegmentWins | src/Adapters/Storage/Postgres/PostgresConfigParser.ts:48-52 | a later duplicate key overwrites an earlier one; the key `__proto__` never becomes a property of the `{}` accumulator |
| PostgresConfigParserModel.EmptyQuery | src/Adapters/Storage/Postgres/PostgresConfigParser.ts:45-52 | the empty query gives `{'': ''}` |
| PostgresConfigParserModel.SegmentRoundTrip | src/Adapters/Storage/Postgres/PostgresConfigParser.ts:49-50 | an encoded `key=value` segment parses back to the pair |
| PostgresConfigParserModel.EncodedHasNoDelimiters | src/Adapters/Storage/Postgres/PostgresConfigParser.ts:47-50 | encoded text holds no `=` or `&` |
| PostgresConfigParserModel.ParseEncodedSegments | src/Adapters/Storage/Postgres/PostgresConfigParser.ts:48-52 | encoded segments parse to the pairs assigned in order |
| PostgresConfigParserModel.QueryRoundTrip | src/Adapters/Storage/Postgres/PostgresConfigParser.ts:45-52 | a query string of encoded pairs joined by `&` parses back to those pairs, later duplicates winning; its keys are the pairs' keys without `__proto__` |
| PostgresConfigParserModel.ParseQueryParamsAsWritten | src/Adapters/Storage/Postgres/PostgresConfigParser.ts:45-52 | the `''` default covers `undefined` only, so a `null` query throws at `split` |
| PostgresConfigParserModel.ParseQueryParams | src/Adapters/Storage/Postgres/PostgresConfigParser.ts:45-52 | a missing query string reads as the empty one and cannot throw |
| PostgresConfigParserModel.PoolSize | src/Adapters/Storage/Postgres/PostgresConfigParser.ts:38 | never 0: the parsed number, or 10 for 0 or NaN |
| PostgresConfigParserModel.GetDatabaseOptionsFromUriAsWritten | src/Adapters/Storage/Postgres/PostgresConfigParser.ts:17-43 | as written, a URI without a query string throws |
| PostgresConfigParserModel.GetDatabaseOptionsFromUri | src/Adapters/Storage/Postgres/PostgresConfigParser.ts:17-43 | with the missing query read as empty it never throws for lack of a query, and otherwise agrees with the code |
| PostgresConfigParserModel.BareUriDefaults | src/Adapters/Storage/Postgres/PostgresConfigParser.ts:24-35 | a bare URI gives every default (localhost, 5432, no database, empty credentials, flags off); as written it throws |
| PostgresConfigParserModel.ConnectionFields | src/Adapters/Storage/Postgres/PostgresConfigParser.ts:25-27 | host, port and database each come from their URI part or their default |
| PostgresConfigParserModel.Credentials | src/Adapters/Storage/Postgres/PostgresConfigParser.ts:21-29 | user and password are the first two `:` parts of the auth text, each defaulting to `''` |
| PostgresConfigParserModel.Flags | src/Adapters/Storage/Postgres/PostgresConfigParser.ts:30-31 | `ssl` and `binary` are on exactly for a string that lower-cases to `true` |
| PostgresConfigParserModel.PoolSizeRule | src/Adapters/Storage/Postgres/PostgresConfigParser.ts:37-39 | `poolSize` is set exactly when the parameter is truthy, to its `PoolSize` |
| PostgresConfigParserModel.PoolSizeDefaults | src/Adapters/Storage/Postgres/PostgresConfigParser.ts:38 | `0` and text without digits give the default 10 |
| PostgresConfigParserModel.PoolSizeValues | src/Adapters/Storage/Postgres/PostgresConfigParser.ts:38 | a positive number written in decimal gives itself |
| OAuth1ClientModel.Rfc5849Encode | src/Adapters/Auth/OAuth1Client.ts:164-167 | the reference encoding leaves only unreserved characters and `%` |
| OAuth1ClientModel.EncodeIsRfc5849 | src/Adapters/Auth/OAuth1Client.ts:164-167 | `encodeURIComponent` plus the five replacements is the encoding of section 3.6 of RFC 5849 |
| OAuth1ClientModel.EncodeOneChar | src/Adapters/Auth/OAuth1Client.ts:166 | one character is kept if unreserved and escaped as the reference does otherwise |
| OAuth1ClientModel.SubDelimEscape | src/Adapters/Auth/OAuth1Client.ts:166 | each of `!'()*` is escaped as section 3.6 asks |
| OAuth1ClientModel.EscapeSubDelimsAbsent | src/Adapters/Auth/OAuth1Client.ts:166 | text without `!'()*` passes the replacements unchanged |
| OAuth1ClientModel.ReplaceAll | src/Adapters/Auth/OAuth1Client.ts:166 | a global replace of an absent character changes nothing |
| OAuth1ClientModel.ReplaceAllConcat | src/Adapters/Auth/OAuth1Client.ts:166 | a global replace works piece by piece |
| OAuth1ClientModel.ReplaceAllOne | src/Adapters/Auth/OAuth1Client.ts:166 | a global replace on one character |
| OAuth1ClientModel.EscapeSubDelimsConcat | src/Adapters/Auth/OAuth1Client.ts:166 | the five replacements work piece by piece |
| OAuth1ClientModel.PercentEncodeAscii | src/Adapters/Auth/OAuth1Client.ts:166 | an ASCII character's escape is one `%XX` |
| OAuth1ClientModel.DecodeRfc5849 | src/Adapters/Auth/OAuth1Client.ts:164-167 | `decodeURIComponent` undoes the reference encoding for every string |
| OAuth1ClientModel.Encode | src/Adapters/Auth/OAuth1Client.ts:164-167 | `encode` is the reference encoding of the value's string form |
| OAuth1ClientModel.EncodeHasNoDelimiters | src/Adapters/Auth/OAuth1Client.ts:164-167 | an encoded value holds no `&`, `=` or `?` |
| OAuth1ClientModel.EncodeRoundTrip | src/Adapters/Auth/OAuth1Client.ts:164-167 | decoding an encoded value gives its string form back |
| OAuth1ClientModel.BuildParameterString | src/Adapters/Auth/OAuth1Client.ts:156-162 | throws exactly for `null` and `undefined`; the empty object gives `''` |
| OAuth1ClientModel.ParameterStringCanonical | src/Adapters/Auth/OAuth1Client.ts:156-162 | the string depends on the keys and values only, not on insertion order (section 3.4.1.3.2 of RFC 5849) |
| OAuth1ClientModel.ParameterStringParts | src/Adapters/Auth/OAuth1Client.ts:156-162 | the string splits back into one `key=value` pair per key, keys ascending and unencoded, each value decoding to the property's string form |
| OAuth1ClientModel.SortedMember | src/Adapters/Auth/OAuth1Client.ts:158 | sorting the keys keeps only keys of the object |
| OAuth1ClientModel.PairSplits | src/Adapters/Auth/OAuth1Client.ts:159-161 | a pair splits at its `=` into the key and the encoded value |
| OAuth1ClientModel.BuildSignatureString | src/Adapters/Auth/OAuth1Client.ts:179-181 | the base string is the method, the encoded url and the encoded parameters joined by `&` (section 3.4.1.1 of RFC 5849) |
| OAuth1ClientModel.SignatureStringRoundTrip | src/Adapters/Auth/OAuth1Client.ts:179-181 | the three parts of a base string are recoverable |
| OAuth1ClientModel.SigningKey | src/Adapters/Auth/OAuth1Client.ts:109-132 | the key is `signRequest`'s encoded `consumerSecret`, `&`, its encoded `authTokenSecret` (default `''`), each part decoding back (section 3.4.2 of RFC 5849); the only caller (line 92) passes the consumer key and the token, not the stored secrets, and is never reached (see Left out) |
| OAuth1ClientModel.RootedPath | src/Adapters/Auth/OAuth1Client.ts:72-74 | a `/` is put in front exactly when the path does not start with one |
| OAuth1ClientModel.RequestPath | src/Adapters/Auth/OAuth1Client.ts:72-77 | `?` and the parameter string are appended exactly when the parameters have a key |
| OAuth1ClientModel.RequestPathQuery | src/Adapters/Auth/OAuth1Client.ts:72-77 | the first `?` of the request path separates the rooted path from the parameter string |
| OAuth1ClientModel.JsObject.constructor | src/Adapters/Auth/OAuth1Client.ts:38 | a mutable object holding the given properties |
| OAuth1ClientModel.OAuth.constructor | src/Adapters/Auth/OAuth1Client.ts:25-39 | copies the credentials and host; a missing `oauth_params` gives a fresh empty object |
| OAuth1ClientModel.ParamsAfterBuild | src/Adapters/Auth/OAuth1Client.ts:86-90 | `oauth_consumer_key` is written, `oauth_token` only for a truthy token, and nothing else changes |
| OAuth1ClientModel.ParamsAfterBuildIdempotent | src/Adapters/Auth/OAuth1Client.ts:86-90 | a second build with the same credentials leaves the shared object as the first left it |
| OAuth1ClientModel.AssignKeep | src/Adapters/Auth/OAuth1Client.ts:87-89 | assigning a property its current value changes nothing |
| OAuth1ClientModel.OAuth.BuildRequest | src/Adapters/Auth/OAuth1Client.ts:71-98 | builds the request path, writes the credentials into the shared object (which persists), then throws in `signRequest` |
| OAuth1ClientModel.OAuth.Nonce | src/Adapters/Auth/OAuth1Client.ts:169-177 | 30 characters, each picked from the 62-character alphanumeric alphabet by its draw |
| TwitterModel.HandleMultipleConfigurations | src/Adapters/Auth/twitter.ts:30-45 | a single value is returned as is; an array needs a truthy client key, writes it into every configuration, and yields the first one (an error when empty) |
| TwitterModel.WriteKey | src/Adapters/Auth/twitter.ts:37 | every configuration object, shared or repeated, ends up with `consumer_key` set to the client's key and nothing else changed |
| TwitterModel.FirstWithKey | src/Adapters/Auth/twitter.ts:37 | the index of the first configuration with the key, and none exactly when no configuration has it |
| TwitterModel.SelectConfiguration | src/Adapters/Auth/twitter.ts:30-45 | with the filter comparing: succeeds exactly when some configuration has the client's key, and chooses one that has it |
| TwitterModel.SelectsMatchingConfiguration | src/Adapters/Auth/twitter.ts:37 | configurations keyed `a` and `b` with a client sending `b`: the second is chosen |
| TwitterModel.SettingsFrom | src/Adapters/Auth/twitter.ts:12-15 | consumer credentials from the options value, token and secret from the auth data, the Twitter host; `null` auth data throws |
| TwitterModel.ValidateAuthDataAsWritten | src/Adapters/Auth/twitter.ts:6-15 | missing options throw INTERNAL_SERVER_ERROR; with an array, the client key's read error or a falsy key throws and leaves the configurations unchanged, otherwise the key is written into every configuration, an empty array throws, and the client gets no consumer key or secret |
| TwitterModel.ValidateAuthData | src/Adapters/Auth/twitter.ts:6-15 | missing options throw; with several configurations the client uses the key and secret of the one configured with the client's key |
| CliParsers.NumberParsers | src/cli/utils/parsers.ts:1-7 | succeeds exactly when `parseInt` finds a number, giving it; otherwise the `Key ... has invalid value ...` error |
| CliParsers.NumberParsersRoundTrip | src/cli/utils/parsers.ts:1-7 | a number, or its decimal text, parses to that number |
| CliParsers.NumberParsersRefuses | src/cli/utils/parsers.ts:2-5 | text that does not start with a digit (after blanks and a sign) is refused |
| CliParsers.NumberOrBoolParser | src/cli/utils/parsers.ts:9-20 | booleans as they are, `'true'`/`'false'` as booleans, anything else as a number |
| CliParsers.NumberOrBoolRoundTrip | src/cli/utils/parsers.ts:9-20 | the text of a boolean or an integer parses back to it |
| CliParsers.ObjectParser | src/cli/utils/parsers.ts:22-27 | objects as they are, anything else through `JSON.parse` |
| CliParsers.ArrayParser | src/cli/utils/parsers.ts:29-37 | arrays as they are; a string gives one comma-free string per comma plus one; anything else throws |
| CliParsers.ArrayParserJoin | src/cli/utils/parsers.ts:33 | the parsed strings joined with `,` give the option text back |
| CliParsers.ArrayParserSplit | src/cli/utils/parsers.ts:33 | comma-free strings joined with `,` parse back to that list |
| CliParsers.ModuleOrObjectParser | src/cli/utils/parsers.ts:39-48 | the `finally` makes the result the input itself, whatever `JSON.parse` does |
| CliParsers.BooleanParser | src/cli/utils/parsers.ts:50-55 | only a truthy value reads true; a boolean reads as itself; a string reads true only at length 1 or 4 |
| CliParsers.BooleanParserRoundTrip | src/cli/utils/parsers.ts:50-55 | the text of a boolean reads back as it; the number 1 reads false while `'1'` reads true |
| CliParsers.NullParser | src/cli/utils/parsers.ts:57-62 | only the text `'null'` is changed, and the result is `undefined` exactly for it or for `undefined` |
| CliParsers.NullParserText | src/cli/utils/parsers.ts:57-62 | `'null'` becomes `undefined`, other text is kept, and applying it twice is applying it once |
| CommanderModel.DefaultsFold | src/utils/commander.ts:26-31 | the defaults hold exactly the options with a truthy `default`, each with that default |
| CommanderModel.ReverseFoldSpec | src/utils/commander.ts:33-42 | every option with a truthy environment name (the string itself or its `env`) is filed under it; nothing else is; of several, the last wins |
| CommanderModel.ReverseWrites | src/utils/commander.ts:33-42 | one write per option |
| CommanderModel.ApplyWritesErr | src/utils/commander.ts:56-66 | a `reduce` of writes throws exactly when one of its writes throws |
| CommanderModel.ApplyWritesHasKeys | src/utils/commander.ts:56-66 | without a throw, every written key is in the object |
| CommanderModel.ApplyWritesOnlyKey | src/utils/commander.ts:56-66 | a key of the object was written, and one write to it is the last |
| CommanderModel.ApplyWritesOnlyKeys | src/utils/commander.ts:56-66 | without a throw, the object holds no key that was not written |
| CommanderModel.ApplyWritesValues | src/utils/commander.ts:56-66 | without a throw, each key holds its last written value |
| CommanderModel.EnvWrites | src/utils/commander.ts:56-66 | one write per environment name |
| CommanderModel.EnvOptionsFoldSpec | src/utils/commander.ts:55-67 | throws exactly when the action of a set variable throws; otherwise sets exactly the options of the set variables, each to its (action-transformed) value |
| CommanderModel.ConfigOptions | src/utils/commander.ts:74-81 | more than one app is refused; one app gives that app; a file without apps is its own options |
| CommanderModel.View | src/utils/commander.ts:82 | the own properties of an options value, in `Object.keys` order |
| CommanderModel.ConfigFold | src/utils/commander.ts:82-91 | loads exactly when every key is an own or inherited definition whose action, if any, succeeds; otherwise throws the first refused key's error (`UnknownOption`, else the action's); keys are kept, and each key with an action holds the action's result, the others their value |
| JsValue.ReadWithPrototype | src/utils/commander.ts:84 | a plain-object read finds an own property, else a truthy inherited member for exactly the `Object.prototype` names |
| CommanderModel.InheritedOptionKept | src/utils/commander.ts:82-91 | a file key named like `toString` with no own definition passes and is kept |
| CommanderModel.ParseConfigFile | src/utils/commander.ts:69-95 | no path gives no options; a refused file throws its error; an object file loads exactly when every key is accepted, keeping its keys, else throws the first refused key's error; every resulting key is an own or inherited definition |
| CommanderModel.MergeKeys | src/utils/commander.ts:98-102 | over a prefix of the keys: a key already set keeps its value, a new key takes the option's |
| CommanderModel.Merge | src/utils/commander.ts:97-103 | the keys of both; an existing value is never replaced |
| CommanderModel.MergeIdempotent | src/utils/commander.ts:97-103 | setting the same options twice changes nothing the second time |
| CommanderModel.Precedence | src/utils/commander.ts:105-117 | after `parse`, a value set before wins, then the environment's, then the file's, then the default |
| CommanderModel.OptionsFold | src/utils/commander.ts:120-125 | exactly the listed keys whose value is not `undefined`, each with that value |
| CommanderModel.KeysOfKeySet | src/utils/commander.ts:120 | the listed keys are the set of own keys |
| CommanderModel.Command.constructor | src/utils/commander.ts:4-8 | a command with no definitions, tables or option values |
| CommanderModel.Command.LoadDefinitions | src/utils/commander.ts:10-52 | succeeds exactly when no definition is `null` or `undefined`, and then stores the defaults and reverse tables |
| CommanderModel.Command.SetValuesIfNeeded | src/utils/commander.ts:97-103 | the option values become the merge: only options not set yet are written |
| CommanderModel.Command.Parse | src/utils/commander.ts:105-117 | if the environment or the file throws, nothing is set; otherwise environment, file and defaults are merged in that order |
| CommanderModel.Command.GetOptions | src/utils/commander.ts:119-126 | exactly the defined options whose value is not `undefined`, with their values |
| AdapterLoaderModel.CaughtTypeError | src/Adapters/AdapterLoader.ts:11 | a TypeError is recognised; a thrown object by its `name` property; a thrown `null` or `undefined` throws a TypeError; other thrown values and errors are not TypeErrors |
| AdapterLoaderModel.CallOrConstruct | src/Adapters/AdapterLoader.ts:7-17 | the call's result; on a TypeError or a thrown object named `TypeError` the constructed one; a thrown `null` or `undefined` fails on its name; anything else is rethrown |
| AdapterLoaderModel.MemberSmaller | src/Adapters/AdapterLoader.ts:24-29 | a descriptor's truthy property is smaller than the descriptor, so the dispatch terminates on objects |
| AdapterLoaderModel.FirstOccurrence | src/Adapters/AdapterLoader.ts:24-29 | a property read finds the first of its name |
| AdapterLoaderModel.DescriptorKey | src/Adapters/AdapterLoader.ts:24-29 | the key followed is `module`, `class` or `adapter` |
| AdapterLoaderModel.LoadAdapter | src/Adapters/AdapterLoader.ts:1-33 | no adapter and no default give the options; a function always finishes; a plain object naming no descriptor key is the adapter |
| AdapterLoaderModel.LoadAdapterCases | src/Adapters/AdapterLoader.ts:1-33 | no adapter gives the options or loads the default; a function is called or constructed; an object follows `module`, then `class`, then `adapter` with its own `options`, and is itself the adapter otherwise |
| AdapterLoaderModel.LoadAdapterModule | src/Adapters/AdapterLoader.ts:18-23 | a module name is required, and its truthy `default` export, else the module, is loaded with the same options |
| AdapterLoaderModel.DefaultIgnored | src/Adapters/AdapterLoader.ts:2-6 | once an adapter is given, the default plays no part |
| AdapterLoaderModel.DescriptorOptions | src/Adapters/AdapterLoader.ts:24-29 | a descriptor's own options replace the ones passed in |
| AdapterLoaderModel.PlainObjectFixpoint | src/Adapters/AdapterLoader.ts:32 | an object naming no descriptor is returned, and loading it again returns it again |
| AdapterLoaderModel.NestedDescriptor | src/Adapters/AdapterLoader.ts:24-29 | nested descriptors are followed and the innermost options win |
| AdapterLoaderModel.FuelMonotone | src/Adapters/AdapterLoader.ts:1-33 | more fuel never changes a finished load |
| AdapterLoaderModel.FuelMonotoneModule | src/Adapters/AdapterLoader.ts:18-23 | the same for a module name |
| AdapterLoaderModel.ModuleStep | src/Adapters/AdapterLoader.ts:18-22 | a failing `require` is passed on; the result is the module or its truthy `default`, and the module itself when an object has no truthy `default` |
| AdapterLoaderModel.ModuleLoad | src/Adapters/AdapterLoader.ts:18-23 | a module name that resolves loads what it resolved to, spending one `require` |
| CryptoUtils.AlphabetRuns | src/cryptoUtis.ts:27 | the literal alphabet is the ASCII runs `A`-`Z`, `a`-`z` and `0`-`9`, in that order |
| CryptoUtils.AlphabetIsAlnum | src/cryptoUtis.ts:27 | the alphabet has 62 characters, `A` first, each a letter or digit |
| CryptoUtils.HexEncode | src/cryptoUtis.ts:12 | two lower-case hex digits per byte |
| CryptoUtils.HexRoundTrip | src/cryptoUtis.ts:12 | the hex text decodes back to the bytes |
| CryptoUtils.RandomHexString | src/cryptoUtis.ts:5-13 | size 0 and odd sizes throw their messages; otherwise `size` hex digits that decode to the drawn bytes |
| CryptoUtils.NewToken | src/cryptoUtis.ts:43-45 | 32 hex digits encoding the 16 drawn bytes |
| CryptoUtils.PieceSpec | src/cryptoUtis.ts:32 | a byte below 128 gives `chars[b % 62]`; one of 128 or more gives `undefined` text, or `A` for a multiple of 62 |
| CryptoUtils.RandomString | src/cryptoUtis.ts:23-35 | size 0 throws, a negative size is refused, and each byte adds its piece as written |
| CryptoUtils.RandomStringHighByte | src/cryptoUtis.ts:32 | as written, a byte of 128 turns one character into the nine letters `undefined` |
| CryptoUtils.RandomAlphanumeric | src/cryptoUtis.ts:23-35 | with the byte read unsigned: the same guards, and one character per byte |
| CryptoUtils.RandomAlphanumericPromise | src/cryptoUtis.ts:15-23 | the corrected function keeps the documented promise: `size` alphanumeric characters |
| CryptoUtils.LowBytesAgree | src/cryptoUtis.ts:32 | for bytes below 128 both readings agree |
| CryptoUtils.NewObjectId | src/cryptoUtis.ts:38-40 | `randomString(size)` as written, size 10 by default: size 0 throws its message, a negative size the RangeError of `randomBytes`; `size` alphanumeric characters only when every drawn byte is below 128 |
| ConfigModel.RemoveTrailingSlash | src/Config.ts:24-32 | a falsy string gives `undefined`; one trailing `/` is dropped; other strings are kept |
| ConfigModel.RemoveTrailingSlashAppended | src/Config.ts:28-30 | a slash appended to any string is taken off again |
| ConfigModel.RemoveTrailingSlashOnce | src/Config.ts:28-31 | only one slash goes: the result ends in `/` exactly when the input ended in `//`, so `'a//'` gives `'a/'` |
| ConfigModel.Config.constructor | src/Config.ts:48-65 | no cache entry sets nothing; otherwise the id and each listed field are copied, `allowClientClassCreation` into `allowClientCssCreation` |

## Left out

- Network, database and file I/O are not modelled: the HTTPS request of `OAuth.send`/`get`/`post` and of Twitter's `validateAuthData`, the `_Session` query (its answer is a parameter), and `require` of a config file or module (a parameter).
- Time, randomness and foreign code are parameters: `Date.now()`, `crypto.randomBytes`, `Math.random`, `JSON.parse`, `JSON.stringify` (frames are the datatype `Stringified`), and calling or constructing a function.
- `md5Hash` and the HMAC-SHA1 of `signRequest` are foreign cryptography. The spread that collects the signature parameters in `signRequest` (`src/Adapters/Auth/OAuth1Client.ts:118-122`) reads the undeclared `oauthParameters`, so `BuildRequest` ends with that error after its writes, before any signing.
- Promises are flattened into results. Timers are an explicit table of pending deletions. NaN expiry and ttl are `None`.
- Logging (`logger`, `console.log`) and commander's `option`/`on('--help')` wiring are not modelled.
- `Command` in `src/utils/commander.ts` does not extend commander's class, so `program.option` would fail. The model follows the evident design: option values live in `values` rather than as own properties of the instance, and its bookkeeping fields are not counted as options. Its initial tables are empty rather than `undefined`.
- CommanderModel.DefaultsFold: the missing `=` at `src/utils/commander.ts:26` is modelled as the assignment it evidently is.
- CommanderModel.EnvOptionsFoldSpec: the parameter is `evn` while the body reads `env` (`src/utils/commander.ts:55-57`). The model reads the parameter.
- CommanderModel.ConfigOptions: `jsonConfig.app[0]` at `src/utils/commander.ts:78` is read as `apps[0]`.
- CommanderModel.EnvOptionsFold: environment names and their definitions are read as own properties only; `env[name]` on an environment that lacks a name like `toString` would find an inherited function.
- CommanderModel.ConfigFold: `action[value]` at `src/utils/commander.ts:89` is read as the call `action(value)`, which is the `apply` parameter.
- CaughtTypeError: a thrown function is taken to have no `name`, because functions are modelled by identity only; throwing the `TypeError` constructor itself would be retried with `new` by the source.
- JsValue.SetProperty: assigning an object to an inherited `__proto__` replaces the object's prototype and so changes what inherited reads find; the model adds no property and changes nothing else. Query values are strings, on which the accessor does nothing; in `_toJSONWithFields` it arises only for a record that owns a `__proto__` object.
- LiveQueryClient.CopyFieldsSpec: `parseObjectJSON[field]` is read as an own property, so a requested field such as `toString` copies `undefined` where the source copies the inherited function.
- OAuth1ClientModel.SigningKey: the key is stated over `signRequest`'s parameters. Its only caller (`src/Adapters/Auth/OAuth1Client.ts:92`) passes `this.consumerKey` and `this.authToken` there, not the stored secrets of lines 34 and 36, so as written the key would be built from the public credentials; the call is never reached, because the parameter spread throws first.
- Strings are sequences of code points: `length`, indexing and `split` count code points where JavaScript counts UTF-16 code units; the two agree on text inside the Basic Multilingual Plane.
- Node's `newListener` and `removeListener` meta-events are not modelled: Node emits them on every listener change, so a subscriber to a channel of one of those names would also be called by other subscriptions; here they are ordinary channels.
- JsValue.Assign: JavaScript lists integer-like keys (`'2'`, `'7'`) first, in ascending order, before the other keys in insertion order; the model keeps every key in insertion order. So for an object that mixes the two kinds (the query `b=1&2=x`, or a CLP with a key `'7'` beside `find`), `Object.keys` order, and with it which invalid operation is reported first, can differ from the source.
- `LoadAdapter` carries a fuel bound for module names. `None` means a chain of `require`d modules longer than the fuel. More fuel never changes a finished load.
- `Client`'s eight `push*` callbacks are one method, `PushEvent`, that takes the event kind.
- `SessionTokenCache`'s LRU eviction policy is not modelled: `Evict` may drop any entry at any time.
- `SchemaCache`'s cache controller is a map-backed store, and its `get` answers synchronously.
- SchemaControllerModel.FieldNameIsValidForClass: the table lookup reads plain objects with `Object.prototype` behind them. A field named after a prototype member counts as a default column, and a class named after one (`constructor`, `toString`) finds that member: its truthy properties are taken from ECMAScript 2019 (`Object`'s later statics such as `hasOwn` are not included), and reading a function's `arguments` or `caller` is not modelled.
- `requiredColumns` and `volatileClasses` (`src/Controllers/SchemaController.ts:127-135`) are used by no modelled function.
- `toLowerCase` is modelled for ASCII only.
- `parseInt` is modelled on integers: no huge numbers, no `-0`. Sorting compares code points, not UTF-16 units. The texts of Node's own error messages are approximated.
- `decodeURIComponent` is modelled over strings of code points. URL parsing is an input record (`ParsedUrl`).
- The Twitter option array's elements are assumed to be objects. `validateAppId` only resolves and is not modelled.
- `Config` does not use its `mount` argument, and the app cache is the parameter `cacheInfo`.

## Findings

| source | as written | input that shows it | evidently intended | confidence | as-written member | corrected member |
|---|---|---|---|---|---|---|
| src/cryptoUtis.ts:32 | `bytes.readInt8(i) % chars.length` reads each byte signed, so a byte of 128 or more gives a negative index and appends the text `undefined` | `randomString(1)` with the random byte 128 gives `"undefined"` | read the byte unsigned, one alphanumeric character per byte | high, not executed | CryptoUtils.RandomStringHighByte | CryptoUtils.RandomAlphanumericPromise |
| src/Controllers/SchemaController.ts:186 | `Object.keys(perms[operation].forEach(...))` calls `forEach` on the permission object | `validateCLP({find: {'*': true}}, {})` throws a TypeError | `Object.keys(perms[operation]).forEach(...)`, checking each permission key | high, not executed | SchemaControllerModel.PublicFindAsWritten | SchemaControllerModel.ValidateCLPSpec |
| src/Adapters/Storage/Postgres/PostgresConfigParser.ts:45 | the default `query = ''` covers `undefined` only; a URI without `?` gives a `null` query, and `null.split` throws | `getDatabaseOptionsFromURI('postgres://')` throws | a missing query string reads as empty | medium, not executed | PostgresConfigParserModel.GetDatabaseOptionsFromUriAsWritten | PostgresConfigParserModel.GetDatabaseOptionsFromUri |
| src/Adapters/Auth/twitter.ts:37 | the filter callback `e.consumer_key = consumerKey` assigns instead of comparing: every configuration is kept and rewritten, and the first is chosen | configurations `[{consumer_key: 'a'}, {consumer_key: 'b'}]` with a client key `'b'` choose the first, rewritten to `'b'` | compare the keys and choose the matching configuration | high, not executed | TwitterModel.HandleMultipleConfigurations | TwitterModel.SelectsMatchingConfiguration |
| src/Adapters/Auth/twitter.ts:12 | the client is built from the whole `options`, not the chosen `option` | the same array of configurations gives a client with no consumer key or secret | build the client from the chosen configuration | high, not executed | TwitterModel.ValidateAuthDataAsWritten | TwitterModel.ValidateAuthData |
