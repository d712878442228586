# PostgreSQL persistence for pip-services (Go port): a Dafny model

This project models the core of the pip-services PostgreSQL persistence library, Go port. It has four parts:

- **The base engine (`values.dfy`, `fragments.dfy`, `engine.dfy`).** This is the TypeScript reference kept, commented out, in `persistence/PostgresPersistence.go`. It is the only visible definition of the SQL fragment helpers the Go variants call.
  - A `PostgresPersistence` component is bound to one table. It queues "create if missing" DDL (`ensureIndex`, `autoCreateObject`).
  - It opens and closes over a connection component and provisions the schema when it opens (`autoCreateObjects`).
  - It composes the SQL of its page, list, count, random-pick, create, clear and delete operations.
  - The node-pg client is a function from a statement to the rows or error it answers.
- **The identifier-keyed variant (`identifiable.dfy`).** Statements are addressed by the `"Id"` column: list by ids, get one, create, upsert (`Set`), update, partial update, delete by id and delete by ids. Each is answered from the first row of a pgx cursor. The pgx pool is a function from a statement to a cursor whose rows decode or fail.
- **The JSON-column variant (`jsonvariant.dfy`).** An item is stored as `{id, data}` in a two-column table. Partial updates merge into the JSON document.
- **The connection resolver (`resolver.dfy`).** It covers:
  - the validation of the configured connection entries;
  - the field-by-field merge of the entries into one pgx `ConnConfig`;
  - the credential;
  - the error precedence of `Resolve`.

Stateful parts are imperative Dafny, as in the source:

- The component and the connection are classes.
- `generateColumns`, `generateParameters`, `generateSetParameters`, `ensureIndex` and `autoCreateObjects` are loops. So are the Go `GetListByIds` loop and the resolver's `validateConnections` and `composeConfig`.
- Each loop is proved against a specification function. The properties are proved about that function.

Some inputs become parameters:

- The drivers;
- the pgx URI parser;
- the object helpers (`CloneObject`, `GenerateObjectId`, `GetObjectId`);
- the number converters;
- the answers of the connection component's own open and close;
- lodash's random draw;
- the results of the two lookups in `Resolve`.

Three defects of the Go code are recorded under "## Findings":

- the `return vErr, nil` of the update, partial update and delete-by-id methods;
- the base-16 id placeholder of the UPDATE;
- the `id` key of the JSON row, which is not the table's `"Id"` column.

The operations of the model follow the code as written. The intended forms are separate members, and lemmas state when the two agree.

## Model

| member | source | states |
|---|---|---|
| Fragments.QuoteIdentifier | persistence/PostgresPersistence.go:269-275 | An empty name stays empty; a name that already starts with `"` is returned as it is; any other name is wrapped in double quotes; the result is empty or starts with `"` |
| Fragments.QuoteIdempotent | persistence/PostgresPersistence.go:269-275 | Quoting twice is quoting once |
| Fragments.GenerateColumns | persistence/PostgresPersistence.go:438-448 | The loop yields the quoted names with a comma before each piece once the text so far is non-empty (`Fold`) |
| Fragments.ColumnsAreJoined | persistence/PostgresPersistence.go:438-448 | With non-empty names the column text is the comma-join of the quoted names, one per name |
| Fragments.EmptyKeyAddsNoColumn | persistence/PostgresPersistence.go:442-444 | An empty key adds no column, and adds a bare comma after non-empty text: the "only add a comma after a non-empty text" rule followed by the empty quoted name |
| Fragments.GenerateParameters | persistence/PostgresPersistence.go:455-467 | The loop yields the comma-join of `$1..$n` for n values, and `""` for none |
| Fragments.ParametersReadBack | persistence/PostgresPersistence.go:455-467 | Split at commas, the parameter text gives back exactly n entries, the i-th being `$` followed by i+1 in decimal |
| Fragments.GenerateSetParameters | persistence/PostgresPersistence.go:474-484 | The loop yields the comma-join of `quote(key_i)=$i`, 1-based and in key order |
| Fragments.SetParametersReadBack | persistence/PostgresPersistence.go:474-484 | Split at commas (for names without commas), the SET text gives back one entry per key, in key order |
| Fragments.GenerateValues | persistence/PostgresPersistence.go:491-493 | One value per key, and with distinct keys the i-th value is the value stored under the i-th key |
| Fragments.SetEntryAt | persistence/PostgresPersistence.go:474-484 | The i-th SET entry is the i-th quoted column, `=`, and the i-th placeholder |
| Fragments.ValueAt | persistence/PostgresPersistence.go:491-493 | With distinct keys, the i-th generated value is the i-th field's value, the value the map holds under that key |
| Fragments.Alignment | persistence/PostgresPersistence.go:438-493 | The i-th column, the i-th placeholder `$(i+1)`, the i-th SET entry and the i-th value all refer to the i-th field |
| Fragments.DecReadsBack | persistence/PostgresPersistence.go:462 | The decimal text of a placeholder number reads back as that number |
| Fragments.HexReadsBack | persistence/IdentifiablePostgresPersistence.go:262 | The base-16 text reads back in base 16 as the number (it is a base-16 numeral, not a decimal one) |
| Fragments.HexIsDecBelowTen | persistence/IdentifiablePostgresPersistence.go:262 | Below ten the base-16 and decimal texts agree |
| Fragments.DecInjective | persistence/PostgresPersistence.go:462 | Different numbers get different placeholders |
| Fragments.IntText | persistence/PostgresPersistence.go:525-526 | The text of an integer is its decimal numeral, with a minus sign for a negative one |
| Values.LookupAtKey | persistence/PostgresPersistence.go:491-493 | With distinct keys, the value under the i-th key is the i-th value: `_.keys` and `_.values` enumerate the same fields |
| Engine.Connection.constructor | persistence/PostgresPersistence.go:197-207 | A connection holds its client, its database name and its open flag |
| Engine.Connection.Open | persistence/PostgresPersistence.go:335-336 | The connection's answer is passed on, and it is open afterwards exactly when it was open before or it opened without error |
| Engine.Connection.Close | persistence/PostgresPersistence.go:366-367 | The connection's answer is passed on, and it is closed afterwards |
| Engine.PostgresPersistence.constructor | persistence/PostgresPersistence.go:142-151 | A new component holds only its table name, with the page size 100, an empty queue, no client, no connection (not local), no database name, and closed |
| Engine.PostgresPersistence.Configure | persistence/PostgresPersistence.go:158-167 | `table` wins over `collection`, which wins over the current name; `options.max_page_size` sets the page size, and its absence resets it to the default 100 that `setDefaults` merges in from the default configuration (line 105); nothing else changes |
| Engine.PostgresPersistence.SetReferences | persistence/PostgresPersistence.go:174-189 | A connection found among the references is used and marked external; otherwise a created connection is used and marked local; nothing else changes |
| Engine.PostgresPersistence.UnsetReferences | persistence/PostgresPersistence.go:193-195 | The connection is dropped and nothing else changes |
| Engine.PostgresPersistence.AutoCreateObject | persistence/PostgresPersistence.go:245-247 | Exactly one statement is added at the end of the queue; the earlier entries and the rest of the state are unchanged |
| Engine.PostgresPersistence.EnsureIndex | persistence/PostgresPersistence.go:214-239 | The key loop builds `IndexStatement`, which is queued last, with nothing else changed |
| Engine.IndexKeysJoined | persistence/PostgresPersistence.go:228-236 | Index keys are comma-space joined, one per key, and a key is marked ` DESC` exactly when its flag is falsy |
| Engine.IndexUniqueness | persistence/PostgresPersistence.go:215-220 | The statement starts `CREATE UNIQUE` exactly when the `unique` option is truthy (otherwise `CREATE INDEX`) |
| Engine.StatementStart | persistence/PostgresPersistence.go:215-220 | The index statement begins `CREATE UNIQUE` when the `unique` option is truthy and `CREATE INDEX` otherwise |
| Engine.HeadStart | persistence/PostgresPersistence.go:215-226 | The statement head begins `CREATE UNIQUE` or `CREATE INDEX` whatever the name, table and index type |
| Engine.MinusOneIsAscending | persistence/PostgresPersistence.go:233-234 | Only a falsy flag gives DESC: the key flag `-1` yields an ascending key, `0` a descending one |
| Engine.SeriesInOrder | persistence/PostgresPersistence.go:421-428 | The queued statements are sent in registration order, and the series stops at the first failure and reports it; on success all of them were sent and succeeded |
| Engine.EachSeries | persistence/PostgresPersistence.go:421-428 | The loop sends the queued statements one by one and stops at the first failure, reporting it, exactly as `RunSeries` specifies |
| Engine.Provisioning | persistence/PostgresPersistence.go:399-431 | With an empty queue no query is sent; a failed probe is reported; if the table exists, only the probe is sent; otherwise the probe is sent, then the series |
| Engine.PostgresPersistence.AutoCreateObjects | persistence/PostgresPersistence.go:399-431 | The probe, then the series when the table is absent, report the error and send the statements of `AutoCreateRun` |
| Engine.PostgresPersistence.Open | persistence/PostgresPersistence.go:292-341 | Already open is a no-op that touches no connection; when not open, a connection is bound afterwards, a bound external connection is left untouched, and a local one is opened, ending open when its answer is no error; a bound connection other than `created` leaves `created` untouched; a closed connection fails with CONNECT_FAILED; otherwise the client and database name are taken and the schema is provisioned; the component is open exactly when provisioning succeeds; a provisioning error is wrapped as CONNECT_FAILED and any error leaves it closed; the table, queue and page size never change |
| Engine.PostgresPersistence.Close | persistence/PostgresPersistence.go:349-372 | Closed is a no-op; with no connection, NO_CONNECTION; otherwise a local connection is closed and, whatever it answers, the component ends closed without a client; a connection it does not close is untouched, and the table, queue, page size and database name stay as they were |
| Engine.ClearQuery | persistence/PostgresPersistence.go:380-387 | Without a table name it fails, otherwise it is the unfiltered DELETE |
| Engine.PageWindow | persistence/PostgresPersistence.go:525-526 | A page query always ends with ` LIMIT take`, has ` OFFSET skip` just before it when skip >= 0, and no OFFSET otherwise |
| Engine.UnsortedList | persistence/PostgresPersistence.go:616-622 | With no projection and no sort, the list query is `SELECT * FROM` the quoted table followed by the filter clause |
| Engine.RandomPickIsOneRowPage | persistence/PostgresPersistence.go:663-670 | The random pick at a position is the one-row page at that offset with the same filter and no sort |
| Engine.DeleteWithoutFilterIsClear | persistence/PostgresPersistence.go:730-733 | Deleting with an empty filter sends the statement `clear` sends |
| Engine.PublicItems | persistence/PostgresPersistence.go:534-536 | One public item per row, in row order, each converted by `convertToPublic` |
| Engine.GetPageByFilter | persistence/PostgresPersistence.go:508-564 | The page query is sent first, with take defaulting to the page size; the count query is sent exactly when the total is wanted and the page query succeeded; an error gives no page; the page holds the converted rows, and it has a total exactly when one was asked for |
| Engine.GetListByFilter | persistence/PostgresPersistence.go:613-639 | One query (projection, filter, order); the converted rows, or the query's error and no list |
| Engine.GetCountByFilter | persistence/PostgresPersistence.go:576-598 | One count query; the count of its only row, 0 when the row count is not 1, or that query's own error and no count |
| Engine.PickAt | persistence/PostgresPersistence.go:672-686 | The pick at a position sends the one-row query; when it fails, reading the rows of the absent result throws and the callback is never called; otherwise the callback gets the converted first row, or the conversion of null when no row came back, and no error |
| Engine.GetOneRandom | persistence/PostgresPersistence.go:651-687 | The count query comes first; its error ends the call through the callback; otherwise the row at a position drawn in [0, count-1] is picked, and a crash of the pick is a crash of the call |
| Engine.DeleteByFilter | persistence/PostgresPersistence.go:730-744 | One DELETE with the filter; its error or none |
| Engine.Clear | persistence/PostgresPersistence.go:380-397 | Without a table name nothing is sent and a plain error comes back; otherwise the unfiltered DELETE is sent, and its failure becomes CONNECT_FAILED with the driver error as cause |
| Engine.Create | persistence/PostgresPersistence.go:696-718 | A null item gives (null, null) without a query; otherwise one INSERT of the converted row is sent; the result is the single returned row converted back, else null; the error is the query's |
| Engine.InsertAligned | persistence/PostgresPersistence.go:700-707 | With distinct keys: one placeholder and one argument per field, the i-th listed column is the i-th key and the i-th argument is that key's value; when no key is empty, the column part of the INSERT text is the plain comma-join of that list, so the text names one column per value |
| Identifiable.NewIdentifiable | persistence/IdentifiablePostgresPersistence.go:103-111 | An empty table name is refused, any other is kept |
| Identifiable.IdListPlaceholders | persistence/IdentifiablePostgresPersistence.go:127-128 | An id-list statement has exactly one placeholder per id, `$1..$n` in order |
| Identifiable.GetListByIds | persistence/IdentifiablePostgresPersistence.go:125-151 | One SELECT with the ids as arguments in input order; a query error gives no list; otherwise the items of the rows that decode, in order (`DecodedItems`) |
| Identifiable.ReadDecoded | persistence/IdentifiablePostgresPersistence.go:135-143 | The cursor loop collects the decoded items in row order and skips rows that do not decode, as `DecodedItems` specifies |
| Identifiable.DecodedItemsAppend | persistence/IdentifiablePostgresPersistence.go:135-143 | Reading two stretches of cursor rows concatenates their items |
| Identifiable.DecodedItemsAllDecoded | persistence/IdentifiablePostgresPersistence.go:135-143 | When every row decodes, there is one item per row, in row order |
| Identifiable.DecodedItemsNoneDecoded | persistence/IdentifiablePostgresPersistence.go:137-139 | Rows that do not decode are skipped, so such a cursor gives an empty list |
| Identifiable.FirstRowReply | persistence/IdentifiablePostgresPersistence.go:166-180 | No row, or an empty first row, gives (nil, nil); a decoded first row gives its item; a first row that does not decode gives (nil, its error) |
| Identifiable.Answer | persistence/IdentifiablePostgresPersistence.go:161-180 | A query error gives (nil, error); otherwise the first-row answer; an empty cursor gives (nil, nil) |
| Identifiable.AnswerAsWritten | persistence/IdentifiablePostgresPersistence.go:266-280 | A query error gives (nil, error); otherwise the swapped first-row answer, which never reports an error |
| Identifiable.WrittenAnswerDiffersOnlyOnDecodeError | persistence/IdentifiablePostgresPersistence.go:270-279 | The written and the intended answers are equal unless the first row fails to decode; then the written one gives (the error as item, no error) where the intended one gives (nil, the error) |
| Identifiable.GetOneById | persistence/IdentifiablePostgresPersistence.go:157-181 | One SELECT of the id as `$1`; a query error is reported with a nil item; otherwise the first-row reply: the decoded item for a first row that decodes to some columns, (nil, its error) for one that does not decode, (nil, nil) for no row |
| Identifiable.Create | persistence/IdentifiablePostgresPersistence.go:187-197 | A nil item gives (nil, nil) without a query; otherwise the outcome is that of the base create run on the clone that has been given an id |
| Identifiable.CreateStoresIdentifiedClone | persistence/IdentifiablePostgresPersistence.go:191-196 | With a faithful clone, the single INSERT stores the item as id generation completed it |
| Identifiable.UpsertAligned | persistence/IdentifiablePostgresPersistence.go:215-224 | In the upsert, columns, placeholders, SET entries and arguments are built from one row and agree position by position |
| Identifiable.SetOutcome | persistence/IdentifiablePostgresPersistence.go:204-241 | A nil item gives (nil, nil) without a query; otherwise the upsert of the row converted from the caller's item, answered from its first row; it does not read the id helpers, so id generation has no effect |
| Identifiable.Set | persistence/IdentifiablePostgresPersistence.go:204-241 | The statement built from the generated lists is the one of `SetOutcome` |
| Identifiable.UpdateTargetsId | persistence/IdentifiablePostgresPersistence.go:256-262 | The values are the row's values followed by the id; the WHERE placeholder reads back as the id's position; the i-th SET entry binds the i-th column to the i-th value |
| Identifiable.UpdateStatement | persistence/IdentifiablePostgresPersistence.go:256-262 | The intended UPDATE binds the row's values and then the id, and ends with `WHERE "Id"=$` followed by the argument count in decimal |
| Identifiable.UpdateOutcome | persistence/IdentifiablePostgresPersistence.go:247-281 | A nil item gives (nil, nil) without a query; otherwise the UPDATE of the clone's row as written (base-16 id placeholder), addressed by the clone's id and answered with the swapped reply |
| Identifiable.Update | persistence/IdentifiablePostgresPersistence.go:247-281 | The statement built with the id appended to the values, and the answer given, are those of `UpdateOutcome` |
| Identifiable.IntendedUpdateOutcome | persistence/IdentifiablePostgresPersistence.go:247-281 | The intended update: the same cases, with the decimal placeholder and the (nil, error) answer |
| Identifiable.UpdateAsIntended | persistence/IdentifiablePostgresPersistence.go:256-279 | The written update is the intended one whenever the row has fewer than nine columns and the first returned row decodes |
| Identifiable.UpdatePartiallyOutcome | persistence/IdentifiablePostgresPersistence.go:288-319 | A nil id gives (nil, nil) without a query; otherwise the UPDATE as written of the given fields, converted by the base conversion, addressed by the id and answered with the swapped reply |
| Identifiable.UpdatePartially | persistence/IdentifiablePostgresPersistence.go:288-319 | The statement built with the id appended, and the answer given, are those of `UpdatePartiallyOutcome` |
| Identifiable.IntendedUpdatePartiallyOutcome | persistence/IdentifiablePostgresPersistence.go:288-319 | The intended partial update: the same cases, with the decimal placeholder and the (nil, error) answer |
| Identifiable.UpdatePartiallyAsIntended | persistence/IdentifiablePostgresPersistence.go:294-317 | The written partial update is the intended one under the same two conditions |
| Identifiable.DeleteById | persistence/IdentifiablePostgresPersistence.go:325-345 | One DELETE of the id as `$1`; an error is reported exactly when the query fails, and then the item is nil; no row gives (nil, nil); unless the first row fails to decode, the answer is the intended first-row answer |
| Identifiable.DeleteByIdsError | persistence/IdentifiablePostgresPersistence.go:358-374 | The query's error, else the decoding error of the first row, else none |
| Identifiable.DeleteByIds | persistence/IdentifiablePostgresPersistence.go:351-375 | One DELETE with the ids as arguments in input order, reporting `DeleteByIdsError` |
| Identifiable.UpdateStatementAsWritten | persistence/IdentifiablePostgresPersistence.go:256-262 | The UPDATE binds the row's values and then the id, and ends with `WHERE "Id"=$` followed by the argument count in base 16, as the source writes it |
| Identifiable.HexPlaceholderFromTenArguments | persistence/IdentifiablePostgresPersistence.go:262 | The base-16 placeholder agrees with the decimal one below nine columns; at nine columns it is `$a` where `$10` is meant |
| Identifiable.SwappedReply | persistence/IdentifiablePostgresPersistence.go:270-279 | As written, a first row that does not decode yields no error, with the decoding error in the item position |
| Identifiable.SwappedReplyHidesError | persistence/IdentifiablePostgresPersistence.go:277 | The swapped answer reports success where the first-row answer reports the error; on every other cursor the two agree |
| JsonVariant.TypeOrDefault | persistence/IdentifiableJsonPostgresPersistence.go:130-135 | An empty column type is replaced by its default; a given one is kept |
| JsonVariant.DefaultTable | persistence/IdentifiableJsonPostgresPersistence.go:130-138 | With no types given, the table statement is the one with a TEXT id and a JSONB document, whose column part is `("Id" TEXT PRIMARY KEY, "data" JSONB)` |
| JsonVariant.EnsureTable | persistence/IdentifiableJsonPostgresPersistence.go:129-140 | Exactly one table statement with the defaulted types is queued last, and nothing else changes |
| JsonVariant.ConvertToPublic | persistence/IdentifiableJsonPostgresPersistence.go:148-157 | Nil stays nil, a map gives its `data` entry, and any other value, a struct included, is returned unchanged |
| JsonVariant.DocumentRow | persistence/IdentifiableJsonPostgresPersistence.go:165-176 | Nil stays nil; any other value becomes the map with the id under the given key and the value under `data`, two distinct keys in that order |
| JsonVariant.ConvertFromPublic | persistence/IdentifiableJsonPostgresPersistence.go:165-176 | Nil stays nil; any other value becomes the map with `id` (its object id) and `data` (the value) |
| JsonVariant.RoundTrip | persistence/IdentifiableJsonPostgresPersistence.go:148-176 | Reading back a stored item gives the item |
| JsonVariant.IdKeyMissesIdColumn | persistence/IdentifiableJsonPostgresPersistence.go:137-174 | The stored row's first column is `"id"`, while the table's id column is `"Id"`, and the two differ |
| JsonVariant.IntendedRowMatchesTable | persistence/IdentifiableJsonPostgresPersistence.go:137-176 | The intended row, `DocumentRow` with the key `Id`, has the table's id column as its first column and still reads back as the item |
| JsonVariant.CreateBindsIdAndDocument | persistence/IdentifiableJsonPostgresPersistence.go:165-175 | A create through this conversion inserts the two columns `"id","data"` with `$1,$2`, bound to the id and the item |
| JsonVariant.MergeStatement | persistence/IdentifiableJsonPostgresPersistence.go:192-193 | The merge binds exactly the id and the fields, in that order, and its text ends with ` WHERE "Id"=$1 RETURNING *`, so it targets the row of the id |
| JsonVariant.UpdatePartially | persistence/IdentifiableJsonPostgresPersistence.go:186-211 | Nil data gives (nil, nil) without a query; otherwise one merge with the arguments [id, data], answered with the swapped reply: an error exactly when the query fails, and the intended answer unless the first row fails to decode |
| Resolver.Port16 | connect/PostgresConnectionResolver.go:130 | `uint16(port)` keeps a port in 0..65535 and otherwise is congruent to it modulo 2^16 |
| Resolver.ValidateConnection | connect/PostgresConnectionResolver.go:71-90 | An entry is valid exactly when it has a URI or has a host, a port and a non-empty database; otherwise NO_HOST, then NO_PORT, then NO_DATABASE, in that order |
| Resolver.FirstErrorIsFirst | connect/PostgresConnectionResolver.go:96-103 | The list check passes exactly when every entry is valid; otherwise its error is that of the first invalid entry, and all entries before it are valid |
| Resolver.ValidateConnections | connect/PostgresConnectionResolver.go:92-104 | The loop with early return gives NO_CONNECTION for an empty list and otherwise the first error in list order |
| Resolver.StepCases | connect/PostgresConnectionResolver.go:112-136 | A blank entry changes nothing; an entry whose URI parses discards everything composed before it, and with no other fields it yields the parsed configuration |
| Resolver.LastParseErrorWins | connect/PostgresConnectionResolver.go:113-121 | The error returned with the configuration is that of the last URI that fails to parse, and there is none exactly when every URI parses |
| Resolver.LastHostWins | connect/PostgresConnectionResolver.go:123-126 | The host is the one from the last entry that sets it, when no later URI parses |
| Resolver.LastPortWins | connect/PostgresConnectionResolver.go:128-131 | The port is the one from the last entry that sets it, cut to 16 bits, when no later URI parses |
| Resolver.LastDatabaseWins | connect/PostgresConnectionResolver.go:133-136 | The database is the one from the last entry that names a non-empty one, when no later URI parses |
| Resolver.ApplyCredential | connect/PostgresConnectionResolver.go:140-150 | Username and password replace the configured ones only when there is a credential and the field is non-empty; host, port and database are untouched |
| Resolver.ComposeConfig | connect/PostgresConnectionResolver.go:106-154 | The loop over the entries, then the credential, yields the specified configuration and the last parse error |
| Resolver.Resolve | connect/PostgresConnectionResolver.go:162-192 | A lookup error, then a validation error, wins over a credential error; the configuration is composed, with its parse error, only when there is neither |

## Left out

- Null table names, identifiers and filters of the TypeScript code are modelled as empty strings, except in `clear`, where a missing table name is its own error. JavaScript truthiness of those strings is non-emptiness.
- `generateColumns` and `generateParameters` also accept an array or any object through `_.keys`. The model takes the key list of a record, or the list of values for the id lists.
- `PagingParams` getters are modelled as "the given value or the default". The library's clamping of negative or oversize values is not shown and is not modelled.
- The key order of a Go map, of a struct, or of a JavaScript object, is modelled as the order of the record's fields, a sequence. Go's randomised map iteration order is not modelled. The properties are stated per position. `Set` and `Update` call four separate helpers (columns, parameters, SET entries, values), each of which ranges over the map on its own. The model assumes that all four calls see one and the same field order.
- Aliasing is not modelled: `CloneObject`, `GenerateObjectId` and `GetObjectId` are functions passed in, and items are values. So "the caller's item is not modified" holds by construction.
- Identifiable.CreateStoresIdentifiedClone: "after GenerateObjectId the item has an id" is assumed as a requirement on the helper (a non-nil result), not proved.
- Identifiable.Create: the Go base `Create` and `ConvertFromRows` are not part of this model. Create is modelled by delegating to the TypeScript base create over a node-pg style client, and row decoding is the parameter `fromRows`.
- Logging, `DependencyResolver`, the `ConfigParams` plumbing and `createConnection` are not modelled. `setReferences` receives the found connection, or the created one, directly.
- The concurrency of callbacks, of `async.eachSeries` and of the two goroutines in `Resolve` is not modelled; each runs sequentially. In `Resolve` the lookups are independent and are joined before any decision.
- The connection component's own open and close are not modelled. Their answers are parameters, and its pool, client and database name are fields.
- `isOpen` only reads the `isOpened` field and has no member of its own.
- Engine.GetOneRandom: lodash's `_.random` is the parameter `random`. The position it draws is not constrained to [0, count-1], and the count text is taken through a number conversion passed in.
- Engine.PostgresPersistence.Open: the source's `this._client == null;` after a failed provisioning is a comparison, not an assignment. The model keeps the client, as the code does. It does not state that the connection is open whenever the component is, because an external connection can be closed behind the component's back.
- Engine.PickAt: that node-pg hands the callback of a failed query an error and no result is taken from the driver's convention, which is not part of this model.
- Engine.Create: the result when the driver reports an error together with rows is null in the model, as it is when no result comes back.
- Identifiable.UpdatePartially: a nil `AnyValueMap` with a non-nil id panics on `data.Value()` in the source. The model takes the map's value directly, so it has no panic path.
- Resolver.ValidateConnection: validation dereferences the nullable database without a nil check. An entry that reaches that check without the key is excluded by the requirement `DerefSafe`, not given an error code.
- Resolver: pgx's `ParseConfig` is the parameter `parse`, and `ConnConfig` is reduced to host, port, database, user and password. The connection and credential resolvers' `ResolveAll` and `Lookup` are given as their results.
- Floating-point values, timeouts, pools and the network are not modelled.

## Findings

| source | as written | input that shows it | evidently intended | confidence | as-written member | corrected member |
|---|---|---|---|---|---|---|
| persistence/IdentifiablePostgresPersistence.go:262, :300 | `"$" + strconv.FormatInt(len(values), 16)` writes the id placeholder in base 16 | An `Update` or `UpdatePartially` of a row with 9 columns: 10 values, written `$a` | The decimal placeholder `$10`, naming the id as the last argument | not executed | Identifiable.UpdateStatementAsWritten, Identifiable.HexPlaceholderFromTenArguments, Identifiable.UpdateOutcome | Identifiable.UpdateStatement, Identifiable.UpdateTargetsId, Identifiable.IntendedUpdateOutcome, Identifiable.UpdateAsIntended |
| persistence/IdentifiablePostgresPersistence.go:277, :315, :342; persistence/IdentifiableJsonPostgresPersistence.go:208 | `return vErr, nil` puts the row-decoding error in the item position and reports success | A cursor whose first row fails to decode, with error e: the reply is (e as the item, no error) | `return nil, vErr`, as in `GetOneById` (:177) and `Set` (:238) | not executed | Identifiable.SwappedReply, Identifiable.AnswerAsWritten, Identifiable.SwappedReplyHidesError | Identifiable.FirstRowReply, Identifiable.Answer, Identifiable.WrittenAnswerDiffersOnlyOnDecodeError |
| persistence/IdentifiableJsonPostgresPersistence.go:137-138, :172 | The table's id column is the quoted `"Id"`, but `ConvertFromPublic` stores the id under the key `id`, which the base create quotes as the column `"id"` | A create of any non-nil item: the INSERT names the column `"id"`, which the two-column table does not have | The key `Id`, the column every other statement of the variant addresses | not executed; the Go base's column generation is not part of this model, so this rests on the TypeScript base quoting the keys | JsonVariant.ConvertFromPublic, JsonVariant.IdKeyMissesIdColumn | JsonVariant.DocumentRow, JsonVariant.IntendedRowMatchesTable |
