# To-do API handler, modelled in Dafny

The to-do API is one AWS Lambda function behind API Gateway. It keeps per-user
to-do items in a DynamoDB table: `userId` is the partition key and `todoId` the
sort key. It offers four routes. Create stores an item. List returns one user's
items, optionally filtered by status. Update sets some fields of an item.
Translate returns the item's description in another language, through Amazon
Translate, and caches the result inside the item. Any other route gets 400. The
handler catches every failure and answers 500.

The model has three modules.

- `StringOrder` (string_order.dfy) is the order in which a DynamoDB query returns
  a partition: ascending by sort key, comparing strings character by character.
  Comparing Unicode scalar values is the same order as comparing UTF-8 bytes. It
  proves the order is strict and total, that every finite set has a least
  element, and it defines `SortedStrings`, the elements of a set in ascending order.
- `Todo` (todo.dfy) holds the data and the specification. It has the item,
  key, event and response datatypes, and JavaScript truthiness as the predicates
  `Truthy` (present and non-empty) and `TruthyInt` (present and non-zero). It has
  one pure function per route (`CreateSpec`, `ListSpec`, `UpdateSpec`,
  `TranslateSpec`) and `HandleSpec` for the whole handler. Each maps the old table
  and an event to an `Outcome`: the response, the new table, and the
  translation requests made. Lemmas relate several requests to one another.
- `Handler` (handler.dfy) is the imperative handler, the class `TodoApi`. Its field
  `table` is the DynamoDB table, a `map` from `(userId, todoId)` to `Item`, and it
  is updated in place. The translation service is an injected function
  `translate`. The ghost field `translateCalls` records every request sent to it.
  The store operations are methods: `Put`, `Get`, `Query`, `UpdateItem` and
  `SetTranslation`. `Handle` dispatches to `Create`, `List`, `Update` and
  `Translate`. Each of these is proved to leave exactly the response, table and
  call log that its specification function gives.

Some behaviour comes from DynamoDB and the AWS SDK, not from the handler's own
code. The model fixes it as follows:

- A key attribute that is missing or empty is refused by the store. Create, List,
  Update and Translate then answer 500 (`InvalidKey`).
- An update on a key that holds nothing creates the item (an upsert). The new item
  has only the patched attributes and no `translations` map.
- `set translations.#lang = :translated` fails on an item without a
  `translations` map (`InvalidDocumentPath`, 500). Lemma `UpsertedItemNeverCaches`
  shows what follows: an item that an update created can never be translated. The
  service may already have been called.
- The SDK checks the translation request's minimum lengths before it sends
  anything (`Sendable`): `Text` needs at least one UTF-16 code unit and each
  language code at least two. Lengths are JavaScript `length`s (`Utf16Length`): a
  character outside the Basic Multilingual Plane counts twice. An item with no or an empty description, or a one-character
  `language` such as `f`, is refused with no call (`InvalidParameter`, 500). The
  handler's own check at lambda/index.js:116 lets a one-character code through.

Four behaviours of the code differ from what a reader might expect. The model keeps them as written:

- An update on a missing key creates the item. It does not answer 404.
- A cached translation is served only when it is non-empty, not whenever it exists.
  An empty translation is written to the cache but never served from it.
- Create does not validate the body. Missing keys reach the store and give 500.
- An update that changes `description` keeps the `translations` map
  (lambda/index.js:71-74). The next translation request is then a cache hit and
  serves the translation of the old description (line 137). Lemma
  `StaleTranslationServed` states this.

## Model

| member | source | states |
|---|---|---|
| `Todo.RouteOf` | lambda/index.js:16-180 | each of the four routes is chosen exactly when method and resource template are equal to its pair; everything else is unsupported |
| `Todo.NewItem` | lambda/index.js:18-27 | a new item has a truthy status and priority: the body's value when truthy, otherwise `pending` and 1 (so priority 0 becomes 1); `completed` is false, the translation cache is empty, the description is kept as sent |
| `Todo.CreateSpec` | lambda/index.js:16-37 | 201 exactly when the body parsed and has both keys; then the table gains that key with `NewItem(body)`, whatever was there, and no other entry changes; the response echoes the stored record; otherwise 500 and the table is unchanged; no translation call |
| `Handler.TodoApi.Put` | lambda/index.js:29-32 | the put overwrites the entry at the key and touches nothing else |
| `Todo.CreateReplaces` | lambda/index.js:29-32 | a second create on the same key leaves the same table and response as that create alone: the older item is replaced, never merged |
| `Todo.CreatedItemIsListed` | lambda/index.js:29-55 | an item just created appears in its owner's list, unfiltered or filtered by its own status |
| `Todo.Partition` | lambda/index.js:42-51 | the query result holds exactly the records of the partition, each with its stored item, sorted strictly by `todoId` |
| `StringOrder.SortedStrings` | lib/todo-api-stack.ts:13-17 | the sort keys come back strictly ascending and exactly once each |
| `StringOrder.LeastExists` | lib/todo-api-stack.ts:13-17 | every non-empty set of sort keys has a least element, so the query order is well defined |
| `StringOrder.SortedStringsShift` | lib/todo-api-stack.ts:13-17 | taking the least sort key off the set and appending it to the keys already listed keeps the whole ascending listing |
| `Handler.TodoApi.Query` | lambda/index.js:42-51 | picking the least remaining sort key over and over yields exactly `Partition(table, userId)` |
| `Todo.FilterByStatus` | lambda/index.js:54-56 | a record is kept exactly when it was in the input and its status is strictly equal to the query's |
| `Todo.FilterSorted` | lambda/index.js:54-56 | filtering a sorted list leaves it sorted |
| `Todo.FilterAppend` | lambda/index.js:55 | filtering distributes over concatenation, so it keeps the store's order |
| `Todo.ListSpec` | lambda/index.js:40-61 | for a truthy `userId` the response is 200 with exactly the partition's records, sorted by `todoId`; with a truthy `status` only those whose status equals it; the table is unchanged and no translation call is made; a missing `userId` gives 500 |
| `Handler.TodoApi.List` | lambda/index.js:40-61 | the list route answers exactly as `ListSpec` says, without changing the table |
| `Todo.PatchOf` | lambda/index.js:71-89 | the patch is empty exactly when description, status and priority are all falsy and `completed` is absent |
| `Handler.BuildPatch` | lambda/index.js:67-87 | pushing one `set` clause per supplied field gives `PatchOf(body)` |
| `Todo.ApplyPatch` | lambda/index.js:96-105 | applying the `set` clauses never changes the translation cache, and a field with no clause keeps its value |
| `Todo.ApplyPatchAppend` | lambda/index.js:99 | the clauses of a patch take effect one after another |
| `Todo.PatchedFields` | lambda/index.js:71-105 | field by field: description, status and priority take the body's value only when it is truthy, `completed` whenever it is present, and the cache is kept |
| `Todo.FalsyFieldsDropped` | lambda/index.js:71-87 | `priority: 0` and `description: ""` leave those fields unchanged, while `completed: false` is written |
| `Todo.Existing` | lambda/index.js:96-105 | an update starts from the stored item, or from an item with no attributes when the key holds nothing |
| `Handler.TodoApi.UpdateItem` | lambda/index.js:96-105 | the store applies the patch to the existing or blank item, stores it at the key, and returns the whole new item |
| `Todo.UpdateSpec` | lambda/index.js:64-110 | an unparsable body gives 500; an empty patch gives 400 `No valid fields to update` and leaves the table untouched; otherwise a missing or empty `userId` or `todoId` gives 500 `InvalidKey` with no change, and a valid key gives 200 with the merged item, which replaces only that key's entry; no translation call |
| `Todo.UpdateIdempotent` | lambda/index.js:96-105 | sending the same update twice leaves the same table and response as sending it once |
| `Todo.CachedTranslation` | lambda/index.js:137 | the cache answers exactly when the item has a translation map holding a non-empty text for the language, and it answers with that text |
| `Todo.WithTranslation` | lambda/index.js:155-167 | the cache write succeeds exactly when the item has a translation map; it then sets that one language and changes nothing else in the item |
| `Handler.TodoApi.Get` | lambda/index.js:123-126 | the get finds an item exactly when the key is in the table, and returns the stored item |
| `Handler.TodoApi.TranslateText` | lambda/index.js:145-152 | one call to the translation service returns its answer for the request and logs the request |
| `Handler.TodoApi.SetTranslation` | lambda/index.js:155-167 | the cache write changes the table exactly as `WithTranslation` says, or not at all when the item has no translation map |
| `Todo.Utf16Length` | lambda/index.js:151 | a string's JavaScript length lies between its number of characters and twice that, and equals the number of characters exactly when none lies outside the Basic Multilingual Plane |
| `Todo.TranslateSpec` | lambda/index.js:113-172 | no language gives 400, and a missing item gives 404, both with no call and no change; a cache hit gives 200 `cached: true` with no call and no change; on a miss, an absent or empty description or a language code shorter than two UTF-16 code units gives 500 with no call; otherwise the service is called exactly once with the description, `auto` and the language; on success only that language's cache slot of that item changes and the response is 200 `cached: false`; a service failure or a missing map gives 500 with the table unchanged |
| `Todo.CacheMissThenHit` | lambda/index.js:137-172 | after a miss that yields a non-empty text, the same request is a cache hit with that text, makes no call and changes nothing |
| `Todo.EmptyTranslationNotServed` | lambda/index.js:137-167 | after a miss that yields an empty text, the same request calls the service again with the same request |
| `Todo.UpsertedItemNeverCaches` | lambda/index.js:96-167 | a translation of an item that an update created ends in 500 and leaves the table as it was |
| `Todo.StaleTranslationServed` | lambda/index.js:71-137 | after an update that sets any field, including the description, a language already cached for the item is served from the cache with `cached: true` and no call |
| `Todo.FromCallKept` | lambda/index.js:145-152 | a text that a logged request got back stays accounted for when more requests are logged |
| `Todo.TranslateKeepsCacheFromCalls` | lambda/index.js:145-167 | if every cached text was the answer to a logged request for its language, that still holds after the translate route, with its own request appended to the log |
| `Todo.HandleKeepsCacheFromCalls` | lambda/index.js:14-180 | the same holds after a request of any route: a translation cache only ever holds the service's answers to requests in the call log, each for that language |
| `Todo.HandleSpec` | lambda/index.js:7-188 | at most one translation call, only on the translate route, and only with a request that meets the SDK's minimum lengths; no request removes a key; the status is always 200, 201, 400, 404 or 500; an unsupported route gives 400 `Unsupported route or method` and changes nothing; the catch-all gives status 500 exactly when the body is an error, and every 500 carries `Internal server error` and leaves the table unchanged |
| `Handler.TodoApi.constructor` | lambda/index.js:1-5 | the handler starts with the given table and translation service and an empty call log |
| `Handler.TodoApi.Create` | lambda/index.js:16-37 | the create route leaves exactly the response and table that `CreateSpec` gives |
| `Handler.TodoApi.Update` | lambda/index.js:64-110 | the update route leaves exactly the response and table that `UpdateSpec` gives |
| `Handler.TodoApi.Translate` | lambda/index.js:113-172 | the translate route leaves exactly the response, table and call log that `TranslateSpec` gives |
| `Handler.TodoApi.Handle` | lambda/index.js:7-188 | one request leaves exactly the response, table and call log that `HandleSpec` gives, and keeps every cached text accounted for by the call log |

## Left out

- JSON parsing and serialisation are not modelled. A request body is a record of optional fields, and `None` stands for a body that does not parse to an object. Field values of another JSON type are not modelled: `null`, a number where a string is expected, a fractional priority. Neither are bodies that are bare numbers or strings. Response bodies are datatypes, not JSON text.
- `InternalError`: the 500 response carries a `Fault` that names the cause. It does not carry the SDK's own `error.message` text, except for the translation service's message.
- Store failures other than key validation and the missing translation map are not modelled: throttling, capacity, network errors. Each would also end in 500 with no change.
- Reads are modelled as always up to date (strongly consistent). The handler's `get` and `query` pass no `ConsistentRead`, so DynamoDB serves them eventually consistent; `CacheMissThenHit`, `CreatedItemIsListed` and `StaleTranslationServed` hold once the earlier write is visible to the read.
- Query pagination is not modelled. The handler ignores `LastEvaluatedKey`, and the model's query returns the whole partition.
- `CachedTranslation`: JavaScript looks up a language code such as `constructor` through the object prototype. Such a code would count as cached there. The model treats the cache as a plain map.
- The translation service's language detection and quality are not modelled. It is an arbitrary function from request to result.
- Concurrency and async/await are not modelled. In the source, two requests that miss the cache at the same time both call the service. The model runs requests one at a time.
- `console.log`, `console.error` and the `TABLE_NAME` environment variable are not modelled.
- lib/todo-api-stack.ts and lib/todo-api-stack.js are not modelled. They declare the infrastructure: table, function, permissions, routes, API key and throttling. The model takes only the key schema from them.
- The update's `ExpressionAttributeNames` and `ExpressionAttributeValues` maps are not modelled separately. Each `set` clause carries its own value.
