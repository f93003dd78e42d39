# WearableSQLite remote query protocol, modelled in Dafny

WearableSQLite lets an Android Wear node run an SQLite query against a
database on another node. The requesting side, `RemoteSQLAdapter`, gives each
query a path `/com/dmitry/zaitsev/query/<id>` and sends the serialised query to
every connected node. It then blocks until its message listener has stored a
response under that path. The answering side, `QueryHandler`, accepts every
message whose path starts with `/com/dmitry/zaitsev/query`. It runs the query,
copies the cursor into a string table and sends that table back to every
connected node under the same path.

Files:

- `wrappers.dfy`: `Option` (Java's null) and `Result` (a thrown exception).
- `protocol.dfy`: the two records `SerializableQuery` and `SerializableCursorPart`,
  the contents of a cursor (`Table`), the exceptions the core can raise, and the
  serialisation codec as a pair of function values.
- `paths.dfy`: the path prefix, `%d` rendering, the path format and its
  injectivity, and the as-written 32-bit counter (see Findings).
- `transport.dfy`: `getNodes` and the send loop. Both source files contain the
  same code for these, so it is modelled once.
- `client.dfy`: `RemoteSQLAdapter`. A `SharedState` object stands for the static
  `queryIdCounter` and `responses`, and every adapter refers to the same one.
  The adapter class holds `closed` and whether `apiClient` is still set.
- `responder.dfy`: `QueryHandler`. It includes a cursor object, so that
  "`cursor.close()` runs on every exit" can be stated.
- `exchange.dfy`: lemmas about both sides together.

External collaborators are parameters:

- The connected-node list becomes `Option<seq<string>>`; None is a null result.
- Each `sendMessage` becomes an element of a returned list of sends.
- `rawQuery` becomes a function value held in the handler's `database` field.
- Java serialisation becomes a `Codec` value. Lemmas that need the round trip
  require `RoundTrips(codec)`.
- The blocking wait runs on a schedule of wake-up events. A `Timeout` is an
  expired or spurious wake-up. An `Interrupt` is an `InterruptedException`. A
  `Delivery` is the listener thread running `onMessageReceived` while the
  caller waits.

Observations on the code:

- The wait loop has no timeout exit. `TIMEOUT_MILLIS` (RemoteSQLAdapter.java:43)
  suggests a 10-second timeout, but `responses.wait(TIMEOUT_MILLIS)` returning
  only leads back to the `containsKey` check. A call with no answer returns
  only if it is interrupted, and then it returns null. `AwaitWithoutDelivery`
  and `NoDeliveryNoAnswer` state this. `StillWaiting` / `Blocked` mean "has not
  returned when the schedule ends".
- `query()` is `synchronized` on the adapter (RemoteSQLAdapter.java:84), and
  `responses.wait` releases only the monitor of `responses`. An unanswered
  query therefore also blocks `close()` and every later `query()` on that
  adapter until its thread is interrupted. Two waits pending at once, as in
  `OutOfOrderAnswers`, come from two adapters.
- No entry is created when the wait starts. Interrupted and unanswered waits
  therefore leave the map as it was (`AwaitWithoutDelivery`), and no wait
  leaves an entry for its own path (`AwaitLeavesNoEntry`). A response that
  arrives after its waiter has gone stays in the map, since nothing removes it.
- `handleMessage` catches only `IOException`, and none of the calls in its `try`
  throws one. Its Javadoc says it "silently checks" its input
  (QueryHandler.java:54). Yet a malformed request (`SerializationException`),
  an SQL error, an unreadable cell and a closed handler (`NullPointerException`)
  all escape `handleMessage` (`HandleMessage`, `Propagated`).
- Ids start at 0 in every process, and requests go to every connected node.
  A client listener on another node stores every prefixed message, so a
  request from one node can reach another node's waiter whose query has the
  same id. That waiter takes the request as its answer, and `query()` throws
  `ClassCastException` (`ForeignRequestTakenAsAnswer`). A foreign answer for
  the same id is taken in the same way.
- Responses are broadcast to every node, including other responders. Their
  paths pass the responder's prefix filter, and decoding one as a
  `SerializableQuery` throws `ClassCastException` (`ResponseIsNotARequest`).
- `MatrixCursor.addRow` rejects a row whose width differs from the column count.
  `deserializeCursor` then throws `IllegalArgumentException`.
- A second `close()` on either class dereferences the nulled `apiClient`. The
  adapter has already set `closed` by then.

## Model

| member | source | states |
|---|---|---|
| Paths.PathWithId | library/src/main/java/com/github/dmitry/zaitsev/wearablesqlite/RemoteSQLAdapter.java:40-42 | a query path is the prefix, a slash and the decimal id, so it starts with `PATH_QUERY_EXECUTOR` and passes both listeners' filters |
| Paths.DecimalString | library/src/main/java/com/github/dmitry/zaitsev/wearablesqlite/RemoteSQLAdapter.java:88 | `%d` of an id is a non-empty string of digits with no leading zero |
| Paths.DecimalRoundTrip | library/src/main/java/com/github/dmitry/zaitsev/wearablesqlite/RemoteSQLAdapter.java:88 | reading the rendered digits back gives the id |
| Paths.DecimalInjective | library/src/main/java/com/github/dmitry/zaitsev/wearablesqlite/RemoteSQLAdapter.java:88 | two ids render the same exactly when they are equal |
| Paths.PathWithIdInjective | library/src/main/java/com/github/dmitry/zaitsev/wearablesqlite/RemoteSQLAdapter.java:88 | two query paths are equal exactly when their ids are equal |
| Paths.Increment32 | library/src/main/java/com/github/dmitry/zaitsev/wearablesqlite/RemoteSQLAdapter.java:45 | the 32-bit `AtomicInteger` steps by one and wraps from 2^31-1 to -2^31 |
| Paths.IssuedId32 | library/src/main/java/com/github/dmitry/zaitsev/wearablesqlite/RemoteSQLAdapter.java:87 | the id of the k-th query under the 32-bit counter; below 2^31 it is k |
| Paths.IssuedId32Step | library/src/main/java/com/github/dmitry/zaitsev/wearablesqlite/RemoteSQLAdapter.java:87 | each `getAndIncrement` moves from the k-th id to the (k+1)-th |
| Paths.JavaDecimalInjective | library/src/main/java/com/github/dmitry/zaitsev/wearablesqlite/RemoteSQLAdapter.java:88 | `%d` of two Java ints, negative ones included, is equal exactly when the ints are equal |
| Paths.IssuedId32Equal | library/src/main/java/com/github/dmitry/zaitsev/wearablesqlite/RemoteSQLAdapter.java:87 | under the 32-bit counter, queries j and k get the same id exactly when j and k agree modulo 2^32 |
| Paths.PathWithId32 | library/src/main/java/com/github/dmitry/zaitsev/wearablesqlite/RemoteSQLAdapter.java:88 | the as-written path of the k-th query; it still passes the prefix filter |
| Paths.WrappedCounterRepeatsPath | library/src/main/java/com/github/dmitry/zaitsev/wearablesqlite/RemoteSQLAdapter.java:45 | with the 32-bit counter, id 2^31 is below id 2^31-1, and query 2^32 gets the same path as query 0 |
| Paths.PathWithId32Repeats | library/src/main/java/com/github/dmitry/zaitsev/wearablesqlite/RemoteSQLAdapter.java:87-88 | as written, queries j and k get the same path exactly when j and k agree modulo 2^32: paths repeat every 2^32 queries and never sooner |
| Transport.ConnectedNodeIds | library/src/main/java/com/github/dmitry/zaitsev/wearablesqlite/RemoteSQLAdapter.java:111-123 | `getNodes` returns exactly the distinct ids of the connected nodes, and the empty set for a null result |
| Transport.Broadcast | library/src/main/java/com/github/dmitry/zaitsev/wearablesqlite/RemoteSQLAdapter.java:101-108 | the send loop sends to each node of the set exactly once, always with the same path and payload |
| Transport.BroadcastCount | library/src/main/java/com/github/dmitry/zaitsev/wearablesqlite/RemoteSQLAdapter.java:101-108 | a broadcast sends exactly one message per distinct node id |
| Transport.NoNodesNoSends | library/src/main/java/com/github/dmitry/zaitsev/wearablesqlite/RemoteSQLAdapter.java:115-117 | a null or empty node result sends nothing |
| Client.SharedState.constructor | library/src/main/java/com/github/dmitry/zaitsev/wearablesqlite/RemoteSQLAdapter.java:45-48 | the shared counter starts at 0 and the shared response map empty |
| Client.Deliver | library/src/main/java/com/github/dmitry/zaitsev/wearablesqlite/RemoteSQLAdapter.java:154-161 | a path without the prefix leaves the map unchanged; a prefixed path is set to the data (overwriting); every other key keeps its presence and value |
| Client.AwaitLeavesNoEntry | library/src/main/java/com/github/dmitry/zaitsev/wearablesqlite/RemoteSQLAdapter.java:125-137 | however the wait ends (answer, interrupt, still waiting), no entry remains for its path |
| Client.AwaitWithoutDelivery | library/src/main/java/com/github/dmitry/zaitsev/wearablesqlite/RemoteSQLAdapter.java:127-133 | with no delivery, expired waits only loop again: the map is unchanged, and the wait ends only on an interrupt |
| Client.AwaitResponseMatchesPath | library/src/main/java/com/github/dmitry/zaitsev/wearablesqlite/RemoteSQLAdapter.java:127-135 | the bytes returned were stored under the waited-on path, either before the wait or by a delivery to exactly that path |
| Client.RemoteSqlAdapter.constructor | library/src/main/java/com/github/dmitry/zaitsev/wearablesqlite/RemoteSQLAdapter.java:69-72 | a new adapter is open, has its API client, and shares the process's state |
| Client.RemoteSqlAdapter.BeginQuery | library/src/main/java/com/github/dmitry/zaitsev/wearablesqlite/RemoteSQLAdapter.java:84-90 | when closed: throws "Already closed" and sends nothing, with counter, map and issued paths unchanged; otherwise takes the current counter value as id and leaves the counter one higher; the path has never been issued before; the serialised query goes once to every distinct node under that path |
| Client.RemoteSqlAdapter.SendQuery | library/src/main/java/com/github/dmitry/zaitsev/wearablesqlite/RemoteSQLAdapter.java:96-109 | the serialised `SerializableQuery` is sent under the given path, once to every distinct connected node |
| Client.RemoteSqlAdapter.OnMessageReceived | library/src/main/java/com/github/dmitry/zaitsev/wearablesqlite/RemoteSQLAdapter.java:153-163 | the map becomes `Deliver` of the old map; the counter is untouched |
| Client.RemoteSqlAdapter.TakeResponse | library/src/main/java/com/github/dmitry/zaitsev/wearablesqlite/RemoteSQLAdapter.java:135 | a present key is removed and its bytes returned; an absent key gives null and leaves the map unchanged |
| Client.RemoteSqlAdapter.AwaitResponse | library/src/main/java/com/github/dmitry/zaitsev/wearablesqlite/RemoteSQLAdapter.java:125-137 | the `while (!containsKey)` loop, driven by the wake-up schedule, ends with the outcome and map of `AwaitSpec`; the counter is untouched |
| Client.RemoteSqlAdapter.DeserializeCursor | library/src/main/java/com/github/dmitry/zaitsev/wearablesqlite/RemoteSQLAdapter.java:139-151 | null gives null; malformed bytes and a query record throw; otherwise the cursor has the part's columns and its rows in the same order, or `IllegalArgumentException` if a row's width differs from the column count |
| Client.RemoteSqlAdapter.Query | library/src/main/java/com/github/dmitry/zaitsev/wearablesqlite/RemoteSQLAdapter.java:84-94 | when closed: throws and leaves counter and map unchanged; otherwise sends under `PathWithId(old counter)`, increments the counter, and returns what the wait and `deserializeCursor` yield (null after an interrupt) |
| Client.RemoteSqlAdapter.Close | library/src/main/java/com/github/dmitry/zaitsev/wearablesqlite/RemoteSQLAdapter.java:170-175 | the adapter is closed afterwards; a second close throws `NullPointerException` |
| Client.QueryAfterClose | library/src/main/java/com/github/dmitry/zaitsev/wearablesqlite/RemoteSQLAdapter.java:170-181 | after `close()`, `query()` throws `IllegalStateException("Already closed")`, sends nothing, and leaves the shared counter and map unchanged |
| Responder.Materialize | library/src/main/java/com/github/dmitry/zaitsev/wearablesqlite/QueryHandler.java:112-121 | the table has the cursor's columns, one row per cursor row, each row as wide as the column list, and cell [i][j] equal to `getString(j)` of row i |
| Responder.QueryHandler.constructor | library/src/main/java/com/github/dmitry/zaitsev/wearablesqlite/QueryHandler.java:48-51 | a new handler holds its API client and the given database |
| Responder.QueryHandler.ProcessQuery | library/src/main/java/com/github/dmitry/zaitsev/wearablesqlite/QueryHandler.java:107-125 | the result is the deserialised query's table, or the failure of the step that threw (deserialise, cast, null database, rawQuery, getString); the cursor is opened exactly when rawQuery succeeds and is closed on every exit |
| Responder.QueryHandler.SendCursorPart | library/src/main/java/com/github/dmitry/zaitsev/wearablesqlite/QueryHandler.java:81-91 | the serialised result goes under the given path, once to every distinct node; when apiClient is null it throws |
| Responder.QueryHandler.HandleMessage | library/src/main/java/com/github/dmitry/zaitsev/wearablesqlite/QueryHandler.java:64-79 | a path without the prefix is ignored, with no decoding and no sends; otherwise the result is broadcast under exactly the request's path, and every failure escapes with nothing sent |
| Responder.QueryHandler.Close | library/src/main/java/com/github/dmitry/zaitsev/wearablesqlite/QueryHandler.java:132-136 | the first close nulls `apiClient` and `database`; a second close throws `NullPointerException` and changes nothing |
| Responder.QueryHandler.CloseQuietly | library/src/main/java/com/github/dmitry/zaitsev/wearablesqlite/QueryHandler.java:142-146 | null: does nothing; otherwise behaves as `close()` |
| Exchange.MaterializeRectangular | library/src/main/java/com/github/dmitry/zaitsev/wearablesqlite/QueryHandler.java:112-121 | a table whose rows match the column count is copied unchanged |
| Exchange.RoundTripQuery | library/src/main/java/com/github/dmitry/zaitsev/wearablesqlite/RemoteSQLAdapter.java:84-94 | the request path passes the responder's filter; the responder answers with the database's table; a delivery under that path ends the wait with that answer, the map unchanged; query() returns the same table |
| Exchange.FailedQueryIsNotAnswered | library/src/main/java/com/github/dmitry/zaitsev/wearablesqlite/QueryHandler.java:107-110 | when rawQuery throws, processQuery fails with that SQL error, so no answer is sent |
| Exchange.ResponseIsNotARequest | library/src/main/java/com/github/dmitry/zaitsev/wearablesqlite/QueryHandler.java:67-74 | a response that reaches a responder passes the filter and is then rejected by the cast |
| Exchange.OutOfOrderAnswers | library/src/main/java/com/github/dmitry/zaitsev/wearablesqlite/RemoteSQLAdapter.java:125-137 | two pending queries (from two adapters, since `query()` holds its adapter's lock while waiting) answered in reverse order each receive their own answer, and the map ends as it began |
| Exchange.NoDeliveryNoAnswer | library/src/main/java/com/github/dmitry/zaitsev/wearablesqlite/RemoteSQLAdapter.java:125-137 | with no delivery, query() stays blocked, or returns null after an interrupt, and the map is unchanged |
| Exchange.ForeignRequestTakenAsAnswer | library/src/main/java/com/github/dmitry/zaitsev/wearablesqlite/RemoteSQLAdapter.java:154-161 | another node's request stored under the same id's path is taken by the waiter as its answer, and query() throws `ClassCastException` |

## Findings

| source | as written | input that shows it | evidently intended | confidence | as-written member | corrected member |
|---|---|---|---|---|---|---|
| library/src/main/java/com/github/dmitry/zaitsev/wearablesqlite/RemoteSQLAdapter.java:45 | the query id counter is a 32-bit `AtomicInteger`, and `getAndIncrement` wraps | query number 2^31 of a process gets id -2147483648, below the id before it; query number 2^32 gets id 0 and the path of the first query | ids strictly increase and no path is used twice | not executed; needs 2^31 queries in one process | Paths.PathWithId32Repeats | Paths.PathWithIdInjective |

The adapter model uses the corrected, unbounded counter (`counter: nat`).
`BeginQuery` proves with it that every issued path is new.

## Left out

- Connecting to Google Play Services (`create`, `GoogleApiUtils.connect`) and its `ApiConnectionException`: platform I/O. The constructors start from a connected client.
- Registering and unregistering the message listener, `apiClient.disconnect()`, and the result of each `sendMessage(...).await()`: platform calls whose only modelled effect is the list of sends.
- `synchronized`, `wait`/`notifyAll` and the 10-second timing: concurrency. The rendezvous is a sequential schedule of wake-ups. A response that arrives before the first `containsKey` check is modelled by calling `OnMessageReceived` before `AwaitResponse`.
- The object-serialisation byte format: Java serialisation is a foreign library and is a `Codec` parameter.
- Nulls inside the records (a null `columns` or `rows` array): the record datatypes have no null fields. Null arguments and null cells are modelled.
- `SQLiteDatabase.rawQuery` and the Android cursors: `rawQuery` is a function value, the cursor a `LiveCursor` over `Table`, and a `getString` that throws is a row shorter than the column list. Bind arguments are not checked.
- Paths.DecimalString: assumes a locale whose digits are ASCII. `String.format` uses the default locale, which can render `%d` in other digits.
- Client.RemoteSqlAdapter.BeginQuery: uses the unbounded counter, not the 32-bit wrap-around. The wrap-around is stated separately, in Findings.
- Client.RemoteSqlAdapter.AwaitResponse: does not return while the key is absent. A schedule that runs out leaves it `StillWaiting`, because the source's loop has no other exit.
