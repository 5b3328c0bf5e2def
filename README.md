# Movies table service — a Dafny model

The server (`server.js`) is an Express application over two AWS services. It
has three handlers. `/appCreate` creates the DynamoDB table `movies` and
bulk-loads it from a JSON array of movies kept in S3. `/appDelete` deletes the
table. `/appQuery/:year[/:rating[/:prefix]]` runs one filtered scan and returns
`{title, year, rating}` for each matching movie. Every answer uses the envelope
`{result: {success, message, movies}}` built by `generateResponse`.

This project models the in-process logic of those handlers:

- **Item mapping and batching** (`insertIntoDynamoTable`). Each seed movie
  becomes a put item with the lower-cased title as hash key and `-1` for an
  absent `year`, `info.rating` or `info.rank`. The items are cut into
  contiguous batches of at most 25 (`BATCH_SIZE`), the `BatchWriteItem`
  limit. The batches are written one call each, in order.
- **Query translation** (`query_dynamo_table`). The year goes through
  `parseInt(…, 10)`, and `NaN` answers "Invalid year" with no scan. The rating
  goes through `parseInt` too and falls back to 0. The prefix defaults to `''`
  and is lower-cased. The integers are turned back into strings for the scan.
- **Scan filter and projection** (`get_data`). The filter is
  `releaseYear = :y and begins_with(titleLower, :p) and rating >= :r`. The
  projection keeps title, year and rating, in scan order.
- **Table lifecycle** (`setup_table`, `delete_table`). The table is Absent or
  Present. Create is refused when Present, before anything is fetched. Delete
  is refused when Absent.

The AWS services are abstract state of the class `Server.MovieService`:

- `tableExists` answers `listTables`;
- `table` is the sequence of stored items, in scan order;
- `seed` is the parsed S3 object;
- `calls` logs every service call a handler makes, in order: list tables, get
  object, create table, wait, batch write, scan, delete table.

Files: `options.dfy` (`Option`, standing for `undefined`/`NaN`),
`strings.dfy` (lower-casing, `parseInt`, integer `toString`, the store's number
decoding), `records.dfy` (seed movies, items, the answer envelope and
`GenerateResponse`), `batching.dfy`, `query.dfy`, `server.dfy`.

Three consequences of the code are worth stating:

- A movie with no rating is stored with rating -1. A query whose rating floor
  is 0 (the default) does not return it. `Query.LoadedMovieIsFound` states
  this for the queried movie.
- A query by a movie's year and a prefix of its title also returns every
  other title of that year that starts with the same text and whose rating
  is at least the floor. `Query.Filter`'s contract states this.
- `?.toString() ?? '-1'` replaces only an absent (`null` or `undefined`)
  value with `-1`. A present value that is not a number is not replaced: its
  string form is sent as it is. The model's seed type holds only numbers, so
  that case is not modelled.

## Model

| member | source | states |
|---|---|---|
| `Strings.Lower` | server.js:144 | `toLowerCase` keeps the length, turns each letter into its lower-case form, keeps every other character and leaves no upper-case letter |
| `Strings.ParseInt` | server.js:198-200 | `parseInt(s, 10)` is `NaN` exactly when no digit follows the optional sign; otherwise its sign is that of the text |
| `Strings.ParseIntValue` | server.js:198-200 | `parseInt(s, 10)` is the value of the leading digits with the text's sign; leading zeros, a `+` and trailing non-digit text do not change it (`08` is 8, `+2013` is 2013) |
| `Strings.LowerIdempotent` | server.js:144 | lower-casing the stored key again (as the query path does to its prefix) changes nothing |
| `Strings.LowerPrefix` | server.js:211 | a prefix of a title lower-cases to a prefix of the lower-cased key, so a title prefix always passes `begins_with` |
| `Strings.ParseIntOfIntToString` | server.js:198-200 | `parseInt(n.toString() + t, 10)` is `n` when `t` does not start with a digit; trailing text after the digits is ignored |
| `Strings.StoreNumberOfIntToString` | server.js:211 | the `year.toString()` and `ratingParam.toString()` strings are valid number values that the store decodes back to the same integers |
| `Records.GenerateResponse` | server.js:47-53 | the answer envelope carries `success`, `message` and `movies` unchanged under `result` |
| `Records.MapMovie` | server.js:141-151 | the put item copies `title`, keys it by the lower-cased title (already in normal form), and has -1 for `releaseYear`, `rating` or `rank` exactly where the seed field is absent, the field's value otherwise |
| `Batching.ChunksIsBatching` | server.js:135-153 | the reference split is a batching of the items, with ceil(N/25) batches and none for N = 0 |
| `Batching.LastBatchSize` | server.js:137-140 | the last batch holds N mod 25 items, or 25 when 25 divides N |
| `Batching.BatchingIsChunks` | server.js:135-153 | any split into in-order, non-empty batches of at most 25, all full but the last, is the reference split |
| `Batching.BuildBatches` | server.js:134-153 | the batching loop emits no empty batch and none over 25, all but the last full; concatenated they give the mapped items in input order; there are ceil(N/25) of them |
| `Query.ParseQueryParams` | server.js:198-211 | a `NaN` year, and only that, yields no scan arguments; otherwise the arguments encode the parsed year, the prefix (`''` if absent) lower-cased, and the rating (0 if absent or `NaN`) |
| `Query.DecodeEncode` | server.js:211-225 | the strings `year.toString()` and `ratingParam.toString()` sent as `:y` and `:r` are read back by the store as exactly the integers they came from |
| `Query.Filter` | server.js:227 | a scanned item is returned exactly when it is stored and matches year, lower-cased prefix and rating floor; a matching item comes back as many times as it is stored, so nothing is dropped |
| `Query.FilterAppend` | server.js:227-234 | filtering keeps scan order: matches of an earlier part of the table come before matches of a later part |
| `Query.Project` | server.js:235-247 | the `forEach` loop gives one `{title, year, rating}` per scanned item, in scan order |
| `Query.YearOnlyQuery` | server.js:198-228 | a query with only a year returns exactly the items of that year whose rating is at least 0 |
| `Query.LoadedMovieIsFound` | server.js:141-148 | a loaded movie, queried by `/appQuery/:year/0/:prefix` with its own year and a prefix of its title in any case, is matched exactly when its rating is present and at least 0, and then comes back as its title, year and rating |
| `Query.PrefixIgnoresCase` | server.js:211 | prefixes that differ only in letter case select the same items |
| `Server.MovieService.CheckTableExists` | server.js:40-43 | one `listTables` call; the answer is whether the table exists |
| `Server.MovieService.GetDataFromS3` | server.js:90-97 | one `getObject` call on the fixed bucket and key; the result is the seed array |
| `Server.MovieService.CreateDynamoTable` | server.js:79-129 | one `createTable` call (hash key `titleLower`, range key `releaseYear`, 5/5 units, server.js:101-129), then the `waitFor` of server.js:79; the table exists and is empty |
| `Server.MovieService.InsertIntoDynamoTable` | server.js:133-160 | exactly one write call per batch in batch order, so the write log is the batch sequence; the table gains the mapped items in document order |
| `Server.MovieService.SetupTable` | server.js:59-86 | Present: "Table already exists" after only the existence check (no fetch, create or write). Absent: fetch, create, wait, load all batches, "Creation successful!", table Present and holding the mapped seed |
| `Server.MovieService.DeleteTable` | server.js:168-182 | Absent: "Table does not exist." and no delete call. Present: one delete call and "Table Deleted!". Either way the table is then Absent and empty |
| `Server.MovieService.GetData` | server.js:219-248 | one scan call with the three string values; on a present table the result is the projection of the items matching the decoded values, in scan order; on an absent table the scan fails |
| `Server.MovieService.QueryDynamoTable` | server.js:197-215 | a `NaN` year answers "Invalid year" with `{}` and no scan; otherwise one scan with the decoded criteria, answering "OK" with the matching movies, or an unhandled failure when the table is absent |
| `Server.LifecycleScenario` | server.js:59-182 | from no table: create succeeds and loads the seed, a second create is refused, delete succeeds, a second delete is refused |

## Left out

- AWS SDK calls (`listTables`, `getObject`, `createTable`, `waitFor`, `batchWriteItem`, `scan`, `deleteTable`) are entries of the `calls` log with their effect on `tableExists` and `table`. Network failures, rejected calls and other store errors are not modelled. In the source most of them propagate unhandled.
- `JSON.parse` of the S3 body is not modelled: the parsed array is the `seed` input.
- A seed element without `title` or without `info` makes the source throw a `TypeError` during mapping. The model's input type always has both fields, so that path is not modelled.
- Express routing, static files, `app.listen`, credentials and config loading, and `console.log` progress messages are process plumbing and are not modelled.
- The unused `deleteDynamoTable` helper (server.js:188-191) is not modelled; `delete_table` issues the same call itself.
- Concurrent requests, including create/delete races, are not modelled. Each method runs alone.
- Scan pagination (`LastEvaluatedKey`) is not modelled: the model scans the whole table in one page.
- The store's real scan order is not modelled. `table` keeps insertion order and stands for whatever order the scan returns.
- Overwrites on equal `(titleLower, releaseYear)` keys are not modelled: every put item is appended to `table`.
- Number attributes of stored items hold their numeric value (`real`) rather than their decimal string. Answers therefore carry numbers where the source returns the store's string form.
- An empty `:p` value is taken to match every key in `begins_with`.
- Strings.Lower: lower-cases ASCII letters only. `toLowerCase` applies full Unicode case mapping.
- Strings.ParseInt: does not skip leading whitespace, and integers are unbounded. JavaScript numbers lose precision beyond 2^53.
- The `?? 0` after `parseInt` of the rating is not modelled, because `parseInt` never returns `null` or `undefined`; only the `isNaN` fallback takes effect.
- Strings.StoreNumber: decodes only integer numerals (optional `-`, digits). Those are the only strings the server sends below 1e21. From 1e21 up, `toString` gives exponent form such as `"1e+21"`, which is not modelled.
- Server.MovieService.InsertIntoDynamoTable: assumes every batch is written in full. The source ignores the `UnprocessedItems` of each `batchWriteItem` answer (server.js:157), so a batch the store throttles in part loses those items without notice.
- Server.MovieService.SetupTable: `table == MapAll(seed)` holds only under the same assumption that every batch is written in full.
- Server.MovieService.DeleteTable: treats deletion as immediate. The source does not wait for the delete to finish (server.js:178), while creation does wait (server.js:79). A table being deleted can still be listed, so a request that follows soon after may still find it.
- Server.LifecycleScenario: the refused second delete depends on that immediate deletion.
- Server.MovieService.CheckTableExists: assumes one `listTables` page holds every table name. The source reads only the first page (server.js:41-42), which has at most 100 names.
