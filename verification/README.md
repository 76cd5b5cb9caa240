# A verified model of a headless database server

The system modelled here is a headless database server: clients speak JSON-RPC to it over stdio or HTTP, and it opens,
fences and closes database connections, runs queries against ClickHouse, Postgres and Redis, and exports results. This
project restates its protocol code in Dafny, in the form the code has, and proves what that code is for:

* **Connections.** Three maps with three locks are touched by concurrent calls. `InsertProtocol` and `ConnectProtocol`
  are step systems at the granularity of critical sections, and their theorems hold for every interleaving.
  `ConnectionAttempts`, `Sessions` and `ConnectionManagers` are the classes themselves. Each step system is tied to its
  class by a lemma about undisturbed runs.
* **Server-sent events.** An incremental parser that is equal to one-shot parsing under every chunking, and that
  inverts the printer up to an exactly described normal form.
* **ClickHouse.** The placeholder rewriter with its quote-aware scanner and the meaning of the bound statement, quoting,
  the TSV reader, the capped line reader and the batching stream.
* **Cursor loops.** The Postgres portal and the Redis `SCAN` stream, over abstract server objects.
* **Redis commands.** The tokenizer, parameter binding and the read-only gate.
* **JSON.** The nesting guard against the grammar of JSON text, the JSON-RPC decoder, and the JSON Lines export read
  back by a reader written from RFC 8259.
* **Sessions.** What a session answers and records over whole runs of the stdio transport.
* **Profiles.** Two stores written one after the other, with a stop possible at every point.

Methods carry the loops and state changes of the code and are proved equal to specification functions; the lemmas about
those functions state what the code is for. Everything the code leaves to others is a parameter: the row parser, the
conversion of a Postgres row, the letter case mapping, the float printer, the JSON parser, the clock, fresh identifiers,
what tools do, and where input, output and storage fail.

## Where the code and its documentation disagree

The model follows the code.

* `crates/registry/src/connection_registry.rs:94-97` says a token from before a `forget` stays stale even when
  generation numbers collide. `is_current` compares only the number, so such a token is revived
  (`ForgetRevivesToken`, and exactly when in `TokenAfterForget`). The ordering theorem is therefore about runs that do not
  forget the id, and `ForgetBreaksOrder` shows that this condition is needed.
* `crates/connections/src/manager.rs` leaves a generation counter behind, forever, for each id whose driver failed to
  connect (`IdleMapsAgree` names exactly these).
* `crates/driver-clickhouse/src/query.rs:330-334` returns the first row under a row cap of zero (`ZeroCapReturnsOneRow`);
  the cap is kept exactly if it is at least one or the body has no row (`CapKeptExactly`).
* `crates/driver-clickhouse/src/ident.rs:41-52` doubles quotes but keeps backslashes, which the rewriter's scanner reads
  as escapes; `QuotedLiteralCloses` says for which values a quoted literal ends where it should.
* `crates/driver-clickhouse/src/tsv.rs:78-102` and `108-138` give the same header, or the same error, exactly on bodies
  of two or more lines (`HeadersAgreeExactly`, with three differing bodies in `HeadersDisagree`).
* `crates/driver-redis/src/command.rs:9-10` says only an unquoted `?` is a placeholder. Tokens lose their quotes, so a
  quoted one binds as well (`QuotedMarkBinds`). The placeholders are the documented ones, and values are bound as
  documented, exactly if no quoted token has the text `?` (`PlaceholdersAreBare`, `DocumentedBinding`). Surplus
  parameters are ignored.
* `crates/connection-profiles/src/manager.rs:20-23` offers delete and recreate as the way to remove a password. That works
  exactly if the delete got as far as removing it (`RecreateClears`); `OldPasswordReturns` is a run in which it did not.

## Model

| member | source | states |
|---|---|---|
| ConnectionAttempts.ConnectionAttemptRegistry.Begin | crates/registry/src/connection_registry.rs:59-68 | the id's counter goes up by one, wrapping, from 0 when absent; the new token is current and every other token of the id that was current no longer is |
| ConnectionAttempts.ConnectionAttemptRegistry.IsCurrent | crates/registry/src/connection_registry.rs:70-73 | true exactly if the id has a counter and it equals the token's generation |
| ConnectionAttempts.ConnectionAttemptRegistry.Invalidate | crates/registry/src/connection_registry.rs:79-85 | bumps the counter, so that no token that was current for the id still is |
| ConnectionAttempts.ConnectionAttemptRegistry.Forget | crates/registry/src/connection_registry.rs:98-101 | removes the id's counter and nothing else |
| ConnectionAttempts.TokenLifetime | crates/registry/src/connection_registry.rs:59-85 | a current token is current again after n further bumps exactly if n is a multiple of 2^64 |
| ConnectionAttempts.TokenAfterForget | crates/registry/src/connection_registry.rs:70-101 | after a `forget` any token of the id is current exactly after those n bumps that reach its generation |
| ConnectionAttempts.ForgetRevivesToken | crates/registry/src/connection_registry.rs:94-101 | the documented promise fails: `begin; forget; begin` makes the first token current again |
| Sessions.SessionRegistry.InsertIfCurrent | crates/registry/src/session_registry.rs:62-79 | a current token stores the session and returns the predecessor; a stale one returns the session and changes nothing |
| Sessions.SessionRegistry.Remove | crates/registry/src/session_registry.rs:81-83 | takes the session of the id out and returns it, and touches no other |
| Sessions.SessionRegistry.Contains | crates/registry/src/session_registry.rs:85-87 | true exactly for ids with a session |
| InsertProtocol.SessionsConserved | crates/registry/src/session_registry.rs:44-79 | in every interleaving each session handed in is, with multiplicity, in exactly one place: held by a running insert, stored, refused, returned as predecessor, or removed |
| InsertProtocol.SessionsConservedFromStart | crates/registry/src/session_registry.rs:44-79 | the same for every run from the start |
| InsertProtocol.NeverStuck | crates/registry/src/session_registry.rs:52-79 | with two locks, in every reachable state with a running insert one of them can take its next step, which finishes it or brings it nearer its end |
| InsertProtocol.AcceptedGenerationsNeverDecrease | crates/registry/src/session_registry.rs:52-79 | although `begin` may fall between re-check and insert: with no `forget` of the id and fewer than 2^64 bumps, accepted generations of an id never decrease and none displaces a newer attempt's session |
| InsertProtocol.StaleStaysStale | crates/registry/src/connection_registry.rs:59-85 | within the same bounds a stale token never becomes current again |
| InsertProtocol.StaleTokenCanLand | crates/registry/src/session_registry.rs:52-61 | the admitted window is real: a run in which an accepted insert's token is stale when it lands |
| InsertProtocol.WrapBreaksOrder | crates/registry/src/connection_registry.rs:59-68 | the bound is exact: a run with 2^64 bumps accepts generation 2^64-1 before generation 0 |
| InsertProtocol.ForgetBreaksOrder | crates/registry/src/connection_registry.rs:98-101 | a run with one `forget` accepts generation 2 before generation 1 |
| InsertProtocol.UndisturbedInsert | crates/registry/src/session_registry.rs:62-79 | the four steps run alone have the effect of the sequential method, with the predecessor displaced and nothing left held |
| InsertProtocol.StaleInsertRefused | crates/registry/src/session_registry.rs:62-79 | a stale token is refused at the first check, and only the refusal is recorded |
| ConnectProtocol.NoDriverLostOrClosedTwice | crates/connections/src/manager.rs:138-255 | over all interleavings of connects and disconnects of any ids, a connected driver is held by one running call, published, or disconnected, exactly one of these and disconnected at most once; no published driver is disconnected |
| ConnectProtocol.OvertakenConnectComesToNothing | crates/connections/src/manager.rs:194-236 | the fence: in every run, a connect whose counter is forgotten before it passes the second check is never published and stores no session, and its driver, once the call is over, has been disconnected exactly once |
| ConnectProtocol.PublishedExactly | crates/connections/src/manager.rs:138-236 | a finished connect whose driver connected was published if and only if nothing forgot its counter before the second check |
| ConnectProtocol.IdleDriverPublishedOrClosed | crates/connections/src/manager.rs:138-255 | when no call runs, a connected driver is published exactly if it was not disconnected |
| ConnectProtocol.NoSessionDisplaced | crates/connections/src/manager.rs:147-236 | with a fresh id per connect no connect ever has a session to replace |
| ConnectProtocol.EntriesWithinSessions | crates/connections/src/manager.rs:138-255 | if clients disconnect only ids they learned: entries are within sessions at every step, and no connect is ever superseded |
| ConnectProtocol.IdleMapsAgree | crates/connections/src/manager.rs:138-255 | then, when idle, entries and sessions hold the same ids, and counters exist for these and for ids whose dial failed, and for no others |
| ConnectProtocol.LockstepExactly | crates/connections/src/manager.rs:138-255 | in every run, whichever ids clients disconnect, a published entry has its session exactly if no disconnect took a stored session of that id; entries are within sessions exactly if this is so for all of them |
| ConnectProtocol.GuessedDisconnectBreaksLockstep | crates/connections/src/manager.rs:182-255 | a run in which a disconnect of a guessed id does take it, and leaves an entry without a session |
| ConnectProtocol.ConnectSteps | crates/connections/src/manager.rs:138-192 | the steps of an undisturbed connect up to the stored session |
| ConnectionManagers.ConnectionManager.Connect | crates/connections/src/manager.rs:138-192 | the new state of all three maps in each case: unknown type, failed dial, success; entries and sessions stay in lockstep |
| ConnectionManagers.ConnectionManager.FinishConnect | crates/connections/src/manager.rs:203-236 | installs and disconnects the displaced driver, or disconnects its own driver when superseded |
| ConnectionManagers.ConnectionManager.Disconnect | crates/connections/src/manager.rs:242-255 | the id leaves all three maps even if the driver's own disconnect fails; an unknown id is a success that closes nothing |
| ConnectionManagers.ConnectionManager.Get | crates/connections/src/manager.rs:259-267 | the published driver, or not found |
| ConnectionManagers.UndisturbedConnect | crates/connections/src/manager.rs:138-236 | the protocol's steps run alone have the effect the method promises |
| ConnectionManagers.UndisturbedFailure | crates/connections/src/manager.rs:150-154 | the steps of a failed dial have the effect the method promises, the counter of two included |
| ConnectionManagers.UndisturbedRefusal | crates/connections/src/manager.rs:225-234 | the steps of a superseded connect disconnect its driver and change no map |
| ConnectionManagers.UndisturbedDisconnect | crates/connections/src/manager.rs:242-255 | the steps of a disconnect have the effect the method promises |
| Sse.FieldOfSpelling | crates/mcp-wire/src/sse.rs:95-112 | a line has the name before its colon and the value after it, without one leading space if there is one; a name alone has the empty value; a leading colon makes a comment |
| Sse.EveryLineSpelled | crates/mcp-wire/src/sse.rs:95-112 | every line that is not blank is spelled in one of these ways |
| Sse.PendingEvent.ApplyLine | crates/mcp-wire/src/sse.rs:95-112 | one field line's effect on the pending event, comments and unknown fields ignored |
| Sse.PendingEvent.Dispatch | crates/mcp-wire/src/sse.rs:114-127 | the event pending if there is data, and nothing left pending |
| Sse.SseDecoder.Feed | crates/mcp-wire/src/sse.rs:159-182 | events, leftover buffer and pending fields after one chunk, as one function of what was there before |
| Sse.FeedTwice | crates/mcp-wire/src/sse.rs:159-182 | feeding two chunks is feeding their concatenation |
| Sse.ChunkingIrrelevant | crates/mcp-wire/src/sse.rs:159-182 | for every list of chunks: events, buffer and pending fields are those of the whole text |
| Sse.DecoderReadsBlocks | crates/mcp-wire/src/sse.rs:95-182 | for every stream of lines however spelled and ended, in every chunking: a fresh decoder reports the events of the blocks between blank lines (all data values joined, the last name and id, nothing without data) and keeps the unfinished line |
| Sse.EncodeSseEvent | crates/mcp-wire/src/sse.rs:62-85 | the printed event is the terminated list of its field lines |
| Sse.EncodedText | crates/mcp-wire/src/sse.rs:62-85 | the exact text of an event with one line each of name, id and data |
| Sse.DecodeEncode | crates/mcp-wire/src/sse.rs:48-182 | any list of events, encoded, cut anyhow and decoded, gives the list of normal forms with nothing left buffered or pending |
| Sse.NormalIsIdentity | crates/mcp-wire/src/sse.rs:48-85 | an event survives unchanged exactly if name and id are one line and no data line ends in CR |
| ClickHouseParams.RewriteQuestionMarks | crates/driver-clickhouse/src/params.rs:56-112 | the look-ahead scanner equals the one-character automaton, and its count is the number of `?` outside quotes and backticks |
| ClickHouseParams.RewritingIdempotent | crates/driver-clickhouse/src/params.rs:56-112 | a second pass finds no placeholder and changes nothing |
| ClickHouseParams.BindingMeaning | crates/driver-clickhouse/src/params.rs:56-151 | the server's reading of the rewritten statement is the statement with the k-th value's bytes at the k-th `?` and every other character unchanged, exactly if no parameter of the server's own form was in it |
| ClickHouseParams.ParameterKept | crates/driver-clickhouse/src/params.rs:56-112 | rewriting neither makes nor breaks a parameter at the front of a text |
| ClickHouseParams.PlaceholderRead | crates/driver-clickhouse/src/params.rs:103-106 | the text put in for a `?` reads as the decoded parameter of that number, whatever follows |
| ClickHouseParams.BuildParamQueryPairs | crates/driver-clickhouse/src/params.rs:132-151 | one pair per value, each called `param_p<n>` and decoding from hex, and from UTF-8 for a text, to its value; any NULL is refused |
| ClickHouseParams.PairsCarry | crates/driver-clickhouse/src/params.rs:132-151 | the pair of the k-th number decodes to exactly the k-th value: no key shadows another |
| Encoding.ReadUtf8Text | crates/driver-clickhouse/src/params.rs:139 | a decoder written from RFC 3629 reads every text back from its bytes |
| ClickHouseParams.Prepare | crates/driver-clickhouse/src/query.rs:100-119 | refused exactly on a wrong count or a NULL; otherwise every pair decodes to its value, and statement and pairs mean what was intended under the same exact condition |
| ClickHouseParams.QuoteIdent | crates/driver-clickhouse/src/ident.rs:24-35 | the name in backticks with each backtick doubled |
| ClickHouseParams.QuoteLiteral | crates/driver-clickhouse/src/ident.rs:41-52 | the value in quotes with each quote doubled and backslashes kept |
| ClickHouseParams.QuotedIdentTransparent | crates/driver-clickhouse/src/ident.rs:24-35 | spliced in outside quotes, any quoted name is copied, adds no placeholder, and leaves the text around it treated as if it were absent |
| ClickHouseParams.QuotedLiteralTransparent | crates/driver-clickhouse/src/ident.rs:41-52 | a quoted literal that ends where it should is copied, and no `?` in it is a placeholder |
| ClickHouseParams.QuotedLiteralCloses | crates/driver-clickhouse/src/ident.rs:41-52 | a quoted literal ends where it should exactly if its backslashes, taken in pairs, stand neither before a quote nor last |
| Encoding.ToHex | crates/driver-clickhouse/src/params.rs:114-120 | lower-case hex that decodes to the same bytes |
| Tsv.UnescapeText | crates/driver-clickhouse/src/tsv.rs:28-55 | the escapes resolved left to right, unknown ones losing the backslash and a last lone backslash kept |
| Tsv.UnescapedGlyphs | crates/driver-clickhouse/src/tsv.rs:28-55 | every cell means its characters and escapes one by one, the eight letters by a table, other letters themselves, and a lone backslash at the end itself |
| Tsv.SplitLinesExactly | crates/driver-clickhouse/src/tsv.rs:67-73 | one newline at the very end of a body starts no line; without it the last line counts all the same |
| Tsv.ParseUnterminated | crates/driver-clickhouse/src/tsv.rs:108-138 | a formatted table reads back also without its last newline, unless its last line is empty |
| Tsv.ParseFull | crates/driver-clickhouse/src/tsv.rs:108-138 | the row loop equals the specification of the table a body holds, errors included |
| Tsv.ParseFormatted | crates/driver-clickhouse/src/tsv.rs:28-138 | reading inverts formatting for every table with matching types, whichever optional escapes the formatter uses |
| Tsv.CellRoundTrip | crates/driver-clickhouse/src/tsv.rs:59-65 | every NULL and every text reads back as itself |
| Tsv.NullNotText | crates/driver-clickhouse/src/tsv.rs:59-65 | no text is formatted as the NULL marker |
| Tsv.HeadersAgree | crates/driver-clickhouse/src/tsv.rs:78-138 | on two or more lines both readings give the same header or the same error |
| Tsv.HeadersAgreeExactly | crates/driver-clickhouse/src/tsv.rs:78-138 | for every body, both readings give the same header or the same error if and only if it has two or more lines |
| Tsv.HeadersDisagree | crates/driver-clickhouse/src/tsv.rs:78-138 | three bodies on which they differ: both succeed with different headers, only one succeeds, both fail with different errors |
| ClickHouseRows.ReadCapped | crates/driver-clickhouse/src/query.rs:284-345 | the reader's result is a function of the concatenated text and of whether it broke off, for every chunking, parser and cap, errors included |
| ClickHouseRows.OutcomeExactly | crates/driver-clickhouse/src/query.rs:315-340 | for every body, parser and cap, broken off or not: when the result is a bad line and which, a transport error, a truncated result or a whole one, and with which rows; each if and only if. An untruncated result is the whole body |
| ClickHouseRows.FirstRowsReturned | crates/driver-clickhouse/src/query.rs:292-340 | for a cap of at least 1 and lines that parse: the rows of the first min(cap, n) non-blank lines, an unterminated last one included; not truncated implies nothing was dropped |
| ClickHouseRows.ZeroCapReturnsOneRow | crates/driver-clickhouse/src/query.rs:330-334 | with a cap of 0 and lines that parse, the first row comes back if there is one |
| ClickHouseRows.CapKeptExactly | crates/driver-clickhouse/src/query.rs:320-340 | no more rows than the cap come back if and only if the cap is at least 1 or there is no non-blank line |
| ClickHouseStream.StreamRows | crates/driver-clickhouse/src/stream.rs:47-97 | the elements and the error are a function of the text, for every chunking |
| ClickHouseStream.StreamShape | crates/driver-clickhouse/src/stream.rs:47-97 | one header first, then non-empty batches, all but the last full, together the rows of the first min(EMERGENCY_MAX, n) lines |
| ClickHouseStream.StreamExactly | crates/driver-clickhouse/src/stream.rs:59-96 | for every body and parser, broken off or not: which error ends the stream, if any, and which rows were sent before it |
| Batching.BatchShape | crates/driver-clickhouse/src/stream.rs:61-97 | cutting rows into batches keeps them all, in order |
| PostgresPortal.ExecuteUserQuery | crates/driver-postgres/src/query.rs:144-214 | exactly the first min(cap, n) rows, in an exactly known number of fetches, at most floor(min(cap, n)/1000)+1 and none of size zero; truncated exactly if n >= cap; a bad row fails the call without a commit |
| PostgresPortal.StreamRows | crates/driver-postgres/src/stream.rs:41-79 | the header once and first, then the first min(EMERGENCY_MAX, n) rows in batches, without a fetch of size zero; on a bad row the full batches before it and an error |
| PostgresPortal.ConvertedExactly | crates/driver-postgres/src/query.rs:202-209 | converting a batch is all or nothing, row by row |
| RedisCommand.Tokenize | crates/driver-redis/src/command.rs:143-185 | the loop equals the scanner's specification on every input |
| RedisCommand.FailsIffQuoteOpen | crates/driver-redis/src/command.rs:138-185 | tokenizing fails exactly if a quote is open at the end of input, and names that quote |
| RedisCommand.TokensOfSpelled | crates/driver-redis/src/command.rs:138-185 | every line means its tokens however they are spelled: plain and quoted stretches run together, either quote inside the other, any white space |
| RedisCommand.TokensOfPrinted | crates/driver-redis/src/command.rs:138-185 | tokenizing inverts a quoting printer on every list of strings, empty ones included |
| RedisCommand.BuildCommand | crates/driver-redis/src/command.rs:194-238 | succeeds exactly with a name and a non-NULL value for every `?`; the k-th `?` becomes the k-th value as an argument of its own; the first problem decides the error |
| RedisQuoting.MarkedTexts | crates/driver-redis/src/command.rs:138-185 | a scan that also notes which tokens were quoted has the tokenizer's texts and errors |
| RedisQuoting.PlaceholdersAreBare | crates/driver-redis/src/command.rs:9-10 | for every line that tokenizes, the tokens taken as placeholders are the documented, unquoted ones if and only if no quoted token has the text `?` |
| RedisQuoting.DocumentedBinding | crates/driver-redis/src/command.rs:206-218 | for all values, every argument is the one the documentation promises if and only if no quoted token after the name has the text `?` |
| RedisQuoting.QuotedMarkBinds | crates/driver-redis/src/command.rs:9-10 | `GET '?'` sends the value, not the text |
| RedisCommand.RequireReadOnly | crates/driver-redis/src/command.rs:121-136 | passes exactly if the first token, in upper case, is on the list |
| RedisCommand.UserCommand | crates/driver-redis/src/query.rs:70-85 | run as a user query on a read-only connection, no command leaves under a name off the list, whatever the parameters |
| RedisScan.ParseScanSpec | crates/driver-redis/src/stream.rs:50-105 | the clause loop equals the specification, later clauses replacing earlier ones |
| RedisScan.SpecRoundTrip | crates/driver-redis/src/stream.rs:50-105 | any clauses in any order and number after a table: of each kind the last one counts, and without one the default holds |
| RedisScan.SpecErrors | crates/driver-redis/src/stream.rs:70-98 | each way a list of clauses can end badly and its error, whatever good clauses stand before it |
| RedisScan.ExpandedExactly | crates/driver-redis/src/stream.rs:141-146 | the keys of a page give their rows one after the other, in order, or fail together |
| RedisScan.ReadableExactly | crates/driver-redis/src/stream.rs:124-161 | what can be read is the rows of the pages before the first broken one, in order |
| RedisScan.StreamRows | crates/driver-redis/src/stream.rs:107-163 | for every paging, empty pages included: the header first, no empty batch, and the first min(EMERGENCY_MAX, n) readable rows in order; it fails exactly if a page or key fails before the limit |
| JsonNesting.ExceedsMaxNesting | crates/mcp-wire/src/jsonrpc.rs:248-279 | the scan that stops early reports whether any byte goes deeper than the limit |
| JsonNesting.NestingExact | crates/mcp-wire/src/jsonrpc.rs:240-279 | on every JSON text of RFC 8259, however spaced and spelled, "exceeds k" is reported exactly if the document is deeper than k |
| JsonNesting.NeverDeeper | crates/mcp-wire/src/jsonrpc.rs:240-279 | any input let through, JSON or not, never has more than k brackets open |
| JsonRpc.ShapesExact | crates/mcp-wire/src/jsonrpc.rs:318-420 | every JSON value is exactly one of the four shapes, under conditions stated member by member, or an error of code -32600 |
| JsonRpc.DecodeEncode | crates/mcp-wire/src/jsonrpc.rs:226-238 | each shape decodes from its encoding, up to null error data becoming absent; any other version is refused |
| JsonRpc.ErrorArray | crates/mcp-wire/src/jsonrpc.rs:407-409 | an error written as an array has its fields in the order code, message, data |
| JsonRpc.DecodedIsStable | crates/mcp-wire/src/jsonrpc.rs:318-420 | what was decoded encodes and decodes to itself |
| JsonRpc.DecodeKeeps | crates/mcp-wire/src/jsonrpc.rs:344-420 | decoding drops exactly the members that are not part of the shape and keeps the rest unchanged |
| JsonRpc.OrderIrrelevant | crates/mcp-wire/src/jsonrpc.rs:318-420 | the order of an object's members never matters |
| JsonRpc.DecodeMessage | crates/mcp-wire/src/jsonrpc.rs:305-316 | too deep is INVALID_REQUEST without a parse, unparsable is PARSE_ERROR, anything else is decided by its value |
| JsonRpc.DepthDecides | crates/mcp-wire/src/jsonrpc.rs:305-316 | a well-formed text is refused for depth exactly if its document is deeper than 128 |
| JsonLines.UnwrapWrappers | crates/connections/src/tools/export_query_jsonl.rs:215-227 | the loop peels every wrapper |
| JsonLines.WrapperTransparent | crates/connections/src/tools/export_query_jsonl.rs:192-227 | `Nullable(t)` and `LowCardinality(t)`, in any letter case, are classified as `t`, for every `t` |
| JsonLines.IntegersExact | crates/connections/src/tools/export_query_jsonl.rs:156-170 | in integer columns exactly the numerals from -2^63 to 2^64-1 become numbers, of that value; all other text stays verbatim |
| JsonLines.IntegerColumns | crates/connections/src/tools/export_query_jsonl.rs:156-264 | for the fourteen integer names and `int` or `uint` with digits, in any letter case, wrappers and white space: an in-range numeral is written as its number and any other text as a string |
| JsonLines.BooleanColumns | crates/connections/src/tools/export_query_jsonl.rs:156-198 | for `bool` and `boolean`: the ten spellings of a truth value are written as it, and any other text as a string |
| JsonLines.FloatColumns | crates/connections/src/tools/export_query_jsonl.rs:164-231 | for the float names: a finite float is written as one, and any other text as a string |
| JsonLines.OtherColumns | crates/connections/src/tools/export_query_jsonl.rs:192-210 | for every other type, decimals among them, the text stays as it is |
| JsonLines.CellFaithful | crates/connections/src/tools/export_query_jsonl.rs:148-170 | for any declared type a written value determines the cell's NULL, number, truth value, text or bytes |
| JsonLines.DecimalsVerbatim | crates/connections/src/tools/export_query_jsonl.rs:186-202 | text in a decimal or numeric column, however wrapped, is never turned into a number |
| JsonLines.HexEncode | crates/connections/src/tools/export_query_jsonl.rs:276-283 | `\x` and two digits a byte |
| JsonText.ReadRecordText | crates/connections/src/tools/export_query_jsonl.rs:114-140 | an RFC 8259 reader recovers a record's members, in order and with their values |
| JsonExport.RenderJsonl | crates/connections/src/tools/export_query_jsonl.rs:114-143 | the nested loops write one terminated record a row |
| JsonExport.DumpReadsBack | crates/connections/src/tools/export_query_jsonl.rs:107-143 | a dump splits at newlines into exactly one record a row, and each record reads back as its row's ordered columns and values |
| McpSession.McpSession.Handle | crates/mcp-server/src/session.rs:51-85 | flag, audit log and tool runs after any message, and the reply if any |
| McpSession.McpSession.HandleToolsCall | crates/mcp-server/src/session.rs:145-194 | the order of refusals, and at most one run of a registered tool |
| McpSession.ExchangeSound | crates/mcp-server/src/session.rs:65-194 | one request, one reply under its id, one event under its name; the event is a failure exactly if the reply is an error or has `isError`, with the reply's code |
| McpSession.ToolReported | crates/mcp-server/src/session.rs:145-194 | a registered tool runs once on the client's own arguments, and reply and event tell its value or its failure, with the code that fits the cause |
| McpSession.ToolText | crates/mcp-server/src/session.rs:171-190 | the text shown to the client is the pretty-printed value or the tool's own message |
| McpSession.ServerDescribed | crates/mcp-server/src/session.rs:118-143 | what `initialize` and `tools/list` answer |
| McpSession.RefusedExactly | crates/mcp-server/src/session.rs:96-181 | a request is refused if and only if it names an unknown method or tool, comes before `initialize`, or is a tool call that names no tool; with -32601, -32600 and -32602 |
| McpSession.ToolNamesRecorded | crates/mcp-server/src/session.rs:145-194 | the audit event names a tool exactly if an initialized session was asked to call it |
| McpSession.CallArray | crates/mcp-server/src/session.rs:208-213 | a call written as an array has its fields in the order name, arguments |
| McpSession.CallRead | crates/mcp-server/src/session.rs:208-213 | the call a client writes is the call that is run |
| Stdio.Run | crates/transport-stdio/src/lib.rs:36-72 | output and session after any finite input; if a write fails the loop stops there, with everything before it sent |
| Stdio.Counted | crates/transport-stdio/src/lib.rs:43-71 | one reply per request and per malformed line and no other; one event per request |
| Stdio.OneReplyOneEvent | crates/mcp-server/src/session.rs:65-85 | in every run the reply and the event of each request stand at their place in the order and agree |
| Stdio.FaultAnswered | crates/transport-stdio/src/lib.rs:59-64 | each malformed line gets its decoding error with a null id, in its place |
| Stdio.NoToolBeforeInitialize | crates/mcp-server/src/session.rs:118-152 | a session is initialized exactly if an `initialize` request came; until then no tool has run |
| Stdio.ToolAfterInitialize | crates/mcp-server/src/session.rs:130-152 | whatever message runs a tool is a `tools/call` with an `initialize` before it |
| Profiles.ConnectionProfileManager.Save | crates/connection-profiles/src/manager.rs:100-136 | both stores and the result for every failure point |
| Profiles.ConnectionProfileManager.Resolve | crates/connection-profiles/src/manager.rs:147-178 | the stored details with whatever password is stored under the name |
| Profiles.ConnectionProfileManager.Delete | crates/connection-profiles/src/manager.rs:185-197 | both stores and the result for every failure point |
| Profiles.SaveOkMeansDone | crates/connection-profiles/src/manager.rs:100-136 | a save reports success exactly if both writes worked, and then all of it took effect, creation and update time included |
| Profiles.DeleteOkMeansGone | crates/connection-profiles/src/manager.rs:185-197 | a delete reports success exactly if both writes worked on a known name, and then profile and password are gone; an unknown or empty name changes nothing |
| Profiles.SecretKeyInjective | crates/connection-profiles/src/manager.rs:54-56 | no two names share a secret |
| Profiles.PasswordsAlwaysHeld | crates/connection-profiles/src/manager.rs:100-197 | in every run, with stops anywhere, a profile marked as having a password has one stored |
| Profiles.ReadOnlyStays | crates/connection-profiles/src/manager.rs:24-29 | read-only stays on until a save says `Some(false)` or the profile is deleted, whatever fails |
| Profiles.CreationTimeStays | crates/connection-profiles/src/manager.rs:118-133 | saving again never changes when a profile was created |
| Profiles.ExactUnlessStranded | crates/connection-profiles/src/manager.rs:100-197 | passwords match profiles after a call exactly if it does not stop between its two writes in one of two named ways |
| Profiles.FaultFreeIsExact | crates/connection-profiles/src/manager.rs:100-197 | if every call completes, a password is stored exactly for the profiles that say so, and none for unknown names |
| Profiles.FaultFreeResolves | crates/connection-profiles/src/manager.rs:147-197 | from the start, if every call completes, a profile resolves with a password exactly if it is marked as having one |
| Profiles.StrandedExactly | crates/connection-profiles/src/manager.rs:100-197 | after any run with stops anywhere, a name has a password that no profile owns exactly if some call on it stopped between its writes and no later call on it got past them |
| Profiles.StoredFromStart | crates/connection-profiles/src/manager.rs:100-197 | both run results from empty stores |
| Profiles.SaveThenResolve | crates/connection-profiles/src/manager.rs:100-178 | what a completed save resolves to |
| Profiles.CallsAreIsolated | crates/connection-profiles/src/manager.rs:100-197 | a call on one profile never changes what another resolves to |
| Profiles.RecreateClears | crates/connection-profiles/src/manager.rs:20-23 | delete and recreate removes a password exactly if the delete got that far |
| Profiles.OldPasswordReturns | crates/connection-profiles/src/manager.rs:185-197 | a run in which a recreated profile resolves with the old password |
| Profiles.RetriedDeleteKeepsPassword | crates/connection-profiles/src/manager.rs:188-193 | once the metadata is gone, repeating the delete only reports an error |

## Left out

- Sockets, HTTP, TLS, authentication, rate limiting and encryption: calls into libraries.
- Schema introspection and row decoding: their meaning lies in the database servers.
- Listing tools, ping, echo and configuration builders: they would only add easy members.
- The buffered ClickHouse path: it truncates a parsed table and adds nothing to the streaming one.
- ClickHouseParams.BindingMeaning: the server's reading knows parameters of type `String` and the quotes the rewriter knows; parameters of other types, double-quoted identifiers and comments, which only the server's own grammar distinguishes, are plain text on both sides.
- RedisCommand.UserCommand: the gate stands before `execute_user_query` only; `execute` and `execute_parameterized` (`crates/driver-redis/src/driver.rs:188-201`) run commands without it.
- Characters split across chunks: chunks are character sequences, as a decoder that buffers bytes would give them; the code decodes each chunk on its own and replaces a split character.
- Dropped tasks and cancellation (`cancel_query`, `KILL QUERY`, `CLIENT KILL`): detached and best effort.
- Concurrent `save` and `delete` of one profile: no lock spans both stores; profile runs are sequential with stops.
- A store's own read failure during `resolve` and the contents of a damaged metadata file: reported as they are.
- Parsing and printing of floats in the export: a float is text that the reader gives back.
- Surrogate pairs in the record reader: the export writes such characters as themselves.
- The parser inside the JSON library and its own recursion limit: JSON parsing is a parameter of `DecodeMessage`.
- Replies as bytes on the stdio pipe: output is the list of messages, not their text and newlines.
- The words of error messages that the JSON library adds: a refused `tools/call` or error object has its own message here without them.
- A read that fails forever: the stdio loop would retry without end; input here is finite.
- A fetch, bind or commit that the Postgres server refuses: it ends the call with the server's error. The columns of a result are those the statement describes.
- Parsing a Redis key's reply into rows: a function from keys to rows or failure.
- BuildCommand: arguments are values, not the length-prefixed encoding the client library gives them.
- JsonNesting.ExceedsMaxNesting: the depth counter is unbounded, since it stops at the limit.
- References shared between the connection manager and running queries: a driver is an identity here.
