# AskSQL, modelled and proved

AskSQL turns a question into guarded, row-capped, read-only SQL. This project models the deterministic
logic around the SQL parser, the language model and the database drivers, and proves what that logic
promises. Everything outside it (drivers, network, clocks, the parser, the model, JSON) is a parameter or
a nondeterministic step.

Protocols that span awaits are state machines. One event is the code between two awaits, a run is any
sequence of events, and the theorems are about every run. Beside each state machine stands a class whose
methods are that code in its own form, each proved equal to the step it implements. What the steps amount to
is then proved without them: from the events of a run alone (`AskHistory`, `RegistryHistory`, `RepairOutcome`,
`EventBridge.StreamShape`, `CatalogCache.CallAnswers`), or position by position of a text.

| module | what it is about |
|---|---|
| `Text` | character classes, decimal numerals, `trim`, lower case |
| `Scanner`, `ScannerLaws`, `ScannerMeaning` | stripping, masking and trimming SQL text; locality of the scanner; what its answers mean, position by position |
| `LimitText`, `LimitLaws`, `LimitMeaning` | editing a statement's LIMIT at offsets found in its mask; what is located and matched there |
| `SpliceLaws` | replacing a word anywhere in a text, as every scanner sees it |
| `LimitRewrite`, `LimitMisses` | which clause the `LIMIT ALL` rewrite and the lowering hit, and statements on which they miss |
| `GuardLimit`, `GuardOutcome`, `GuardAgain` | the guard's row cap on text: what it edits, what it blocks and lets out, and what a second guarding does |
| `RowCap`, `SilentCuts` | the row cap from the guard through re-guarding and clipping to the `truncated` flag; when rows go missing unsaid |
| `GuardWalk` | the deep walk over the parsed statement and the deny-sets |
| `CatalogCache` | refresh generations, shared in-flight reads, delete by identity |
| `AskGate`, `AskHistory` | the ask/run/cancel/reset gate of the React hook; which event licenses a query and where everything a turn shows comes from |
| `EventBridge` | the producer/consumer queue behind a chat stream |
| `ConnectionRegistry`, `RegistryHistory` | connections created and deleted at run time, with id reservations; what is registered, told from the requests |
| `RepairLoop`, `RepairOutcome` | the repair loop of `ask` and the retry loop of `callModel`; what every call and every question comes to |
| `CodeLiterals`, `CodeMeaning`, `CodeScope`, `CodeWitnesses` | "no row can match", against a three-valued WHERE semantics with merged join columns; what is reported, in plain terms |
| `SchemaPruning`, `ProbeBudget` | allocators: foreign-key closure, packing, column trimming, probe shares |
| `EditDistance` | the "did you mean" distance and the nearest table name |
| `Sse`, `ReasoningFilter`, `ZipReader` | incremental and binary parsers |

Properties that do not hold of the code on all inputs, each with its exact condition or a concrete witness:

- `trimTrailingNoise` and `scan` read a backslash differently on some engines. They agree on all PostgreSQL
  and DuckDB text, and elsewhere on text without a backslash (`ScannerLaws.LexersAgree`). On MySQL an escaped
  quote lets the appended cap vanish into a literal (`LimitLaws.TrimmerMissesEscapes`) or land behind a `;`
  (`LimitLaws.TrimmerKeepsSeparator`). On every engine and text the cap binds exactly when what the trimmer
  kept ends outside every span, its visible parentheses balance and no noise is left at its end
  (`LimitLaws.AppendedCapBinds`).
- Outside parenthesised branches, `LIMIT ALL` is rewritten at the first raw match. That is the statement's own
  clause exactly when the first raw `limit all` ends in the located one (`LimitRewrite.RewriteHitsIff`). In
  `SELECT * FROM (SELECT * FROM t LIMIT ALL) s WHERE s.x = 1 LIMIT ALL` the subquery is capped instead, a second
  guarding rewrites again, and rows go missing with `truncated` false (`SilentCuts.SubqueryCutsSilently`); in
  `SELECT 'limit all' FROM t LIMIT ALL` the data changes (`LimitMisses.SelectedLiteral`). Lowering has the same
  exact condition on the last visible count (`LimitRewrite.LowerHitsIff`).
- A guarded statement guarded again is left alone exactly under `GuardAgain.Final`: an appended cap that shows
  behind balanced parentheses, or a rewritten `LIMIT ALL` that is the statement's own (`GuardAgain.GuardTwiceIff`).
- `hasMultipleStatements` answers true for text that is nothing but noise and starts with `;`. The exact
  answer is `Scanner.Multiple`.
- `run()` of an answer, asked for a number of rows, says so whenever rows are missing, in every database that
  honours limits, exactly when the guard edits the statement's own clause, or blocks its own result, or the cap
  allows no row (`SilentCuts.NeverSilentIff`): any other edit loses a row unsaid in some such database.
- Once the guard's edit is of the statement's own clause, a result is cut with nothing said exactly under the
  condition of `RowCap.SilentIff`: a row cap that is not a number, or a path that drops the ask-time verdict
  (the code-written catalog query at engine.ts:648, and `execute`, which the React hook calls). A negative row
  cap can exceed the policy (`RowCap.BoundedIff`).
- Overlapping deletes of one connection id can leave a connection that nothing can delete, or drop one
  without closing it. One step does so exactly when `ConnectionRegistry.Stale` holds, and every overlap with a
  re-creation in between gets there (`OverlapBreaks`).
- `codeLiterals` attributes a column reference rightly on every joined row exactly when whatever FROM item the
  reference can be read from is that table and nothing else (`CodeLiterals.AttributionIff`, on the report itself
  `ComparisonIff` and `ConjunctionIff`). It reports on the wrong table when FROM names no stored table, when a CTE takes a table's
  name, when a column is merged by USING or NATURAL, when an alias is another table's name, and when two schemas
  have a table of one name (`CodeWitnesses`).
- `pruneCatalog` sorts its candidates a second time by a map from key to position. With two tables of one key
  this undoes the score order (`SchemaPruning.DuplicateKeysReorder`); it changes nothing exactly when the keys'
  positions already ascend (`ResortedSameIff`), as with distinct keys.
- After a reset a call still under way changes nothing any more, in any run, exactly when it is not a query of a
  turn that was never numbered: `run` and `editSql` take any id, and such a late result lands on the turn that
  is given the id afterwards (`AskGate.LateEventsIff`).
- The reasoning filter depends on chunk boundaries exactly when white space and the opening tag together pass
  twelve characters (`ReasoningFilter.ChunksDoNotMatterIff`).
- The ZIP reader finds the end record that was written exactly when no four later bytes of that record and its
  comment read as the signature, at an offset where a whole record could follow (`ZipReader.EndFoundIff`,
  `ListedIff`). A comment can break this (`CommentMisleads`), and so can the record's own offset field
  (`OffsetMisleads`).

## Model

| member | source | states |
|---|---|---|
| Scanner.Scan | packages/core/src/strip.ts:18-143 | The scanning loop, stripping or masking, renders exactly the token sequence of the text for that engine; what that shows is stated by MaskFaithful and StripFaithful. |
| Scanner.SkipBlock | packages/core/src/strip.ts:51-68 | The nested-comment loop stops where nesting returns to zero, or at the end of the text. |
| Scanner.SkipLiteral | packages/core/src/strip.ts:81-129 | The literal loops stop at the first closing quote that is neither doubled nor escaped, or at the end. |
| Scanner.TrimTrailingNoise | packages/core/src/strip.ts:162-264 | The second scanner returns the text without its trailing noise tokens, with its own idea of engines. |
| Scanner.HasMultipleStatements | packages/core/src/strip.ts:149-159 | True exactly when a `;` stands before the last significant character, or the text is all noise and starts with `;`. |
| Scanner.JoinLex | packages/core/src/strip.ts:18-143 | The tokens of a text, put together, are the text. |
| ScannerLaws.TokStable | packages/core/src/strip.ts:18-143 | Locality: a closed token within a cut is read the same in any text that agrees up to the cut and goes on there with its end, a newline or, where the first text did, a tame character; an unfinished dollar tag or a plain `[` must not gain its end behind the cut. |
| ScannerLaws.TokTruncate | packages/core/src/strip.ts:18-143 | A closed token is read the same when the text is cut right behind it. |
| ScannerLaws.TrimIdempotent | packages/core/src/strip.ts:162-264 | Trimming twice is trimming once, and gives a prefix. |
| ScannerLaws.TrimCutsOnlyNoise | packages/core/src/strip.ts:162-264 | What is cut is a run of white space, `;` and comment tokens of the original text. |
| ScannerLaws.LexersAgree | packages/core/src/strip.ts:19-24 | The two scanners see the same noise, literals and open ends on every text where no backslash can tell them apart. |
| ScannerLaws.MaskFaithful | packages/core/src/strip.ts:18-143 | The mask has the text's length and at every position shows the character if it is a plain token of the scan, and a blank if it is not. |
| ScannerLaws.MaskIdempotent | packages/core/src/strip.ts:18-143 | Masking a mask changes nothing. |
| ScannerLaws.AppendShows | packages/core/src/guard.ts:1050-1053 | A clause appended on its own line is visible in the mask exactly when the text does not end inside a span. |
| ScannerLaws.AppendedCapShows | packages/core/src/guard.ts:858-858 | On every engine and text the cap appended to what the trimmer keeps is visible iff that text does not end inside a span; where the scanners agree, iff the statement does not end inside a literal. |
| ScannerLaws.TrimmedIff | packages/core/src/strip.ts:162-264 | Trimming leaves a text alone iff its last token is not white space, `;` or a comment. |
| ScannerMeaning.StripFaithful | packages/core/src/strip.ts:18-143 | Stripped text is the ordinary characters in order, each hidden span replaced by one blank, or by the quote of a quoted identifier between blanks. |
| ScannerMeaning.SpanlessStrips | packages/core/src/strip.ts:18-143 | Text without spans strips to itself. |
| ScannerMeaning.MultipleIff | packages/core/src/strip.ts:149-159 | The stripped statement holds a second one iff an ordinary `;` of the statement has a significant ordinary character or a quoted identifier behind it, or the statement starts with `;` and nothing of it counts. |
| ScannerMeaning.HoldsTwoStatements | packages/core/src/guard.ts:852-855 | The guard's two calls together decide exactly that. |
| ScannerMeaning.SpanMeans | packages/core/src/strip.ts:36-143 | Which span starts at a character, by engine and first characters, for all eight kinds. |
| ScannerMeaning.SpanReaches | packages/core/src/strip.ts:36-143 | How far each span reaches and whether it is closed: to the line's end, the matching close of nested comments, the first lone unescaped quote, or the first bracket. |
| ScannerMeaning.DollarReaches | packages/core/src/strip.ts:69-80 | A dollar-quoted string ends with the first repetition of its tag, and is open to the end iff there is none. |
| ScannerMeaning.LitMeans | packages/core/src/strip.ts:81-129 | A literal ends at the first quote that is neither escaped, counting backslashes, nor part of a doubled one. |
| ScannerMeaning.NestedComment | packages/core/src/strip.ts:51-68 | A whole comment inside a comment is passed over as one. |
| ScannerMeaning.TrimmerSpanMeans | packages/core/src/strip.ts:162-264 | The trimmer sees the same spans, but escape strings on every engine. |
| ScannerMeaning.TrimMeans | packages/core/src/strip.ts:162-264 | Trimmed text is the text up to its last character that is neither white space or `;` outside every span nor part of a comment. |
| LimitText.LowerLimitInText | packages/core/src/guard.ts:725-741 | The method returns the lowered text, or None, as the last visible LIMIT count says. |
| LimitText.FindLastMatch | packages/core/src/guard.ts:730-733 | The regular-expression loop ends with the last match and its extent. |
| LimitText.StatementLevelLimit | packages/core/src/guard.ts:749-771 | The loop finds the LIMIT outside all parentheses and reads it as a count, ALL or neither. |
| LimitMeaning.LocatedIff | packages/core/src/guard.ts:749-771 | The located LIMIT is the last visible one outside all parentheses, and there is none iff none stands there. |
| LimitMeaning.ReadMeans | packages/core/src/guard.ts:749-771 | It reads as ALL iff ALL follows, as a number iff digits follow, as neither otherwise. |
| LimitMeaning.MatchMeans | packages/core/src/guard.ts:725-733 | Behind a LIMIT the first number is matched, or the second where a comma and a second follow, with its place and length. |
| LimitMeaning.LastIsGreatest | packages/core/src/guard.ts:730-733 | The last of the successive matches is the last place where the expression matches at all. |
| LimitText.MaskSplice | packages/core/src/guard.ts:725-741 | Masking commutes with replacing a visible run of digits. |
| LimitLaws.LoweringIsExact | packages/core/src/guard.ts:725-741 | None iff there is no visible count above the cap; otherwise only those digits change, in the text and in its mask, the count becomes the cap, and a second application is None. |
| LimitLaws.AppendedCapBinds | packages/core/src/guard.ts:1050-1053 | On every engine and text the appended cap is the statement's limit iff what the trimmer kept ends outside every span, its visible parentheses balance and no noise is left at its end; the last always holds where the scanners agree. |
| LimitLaws.BindsIff | packages/core/src/guard.ts:1050-1053 | The same for any text, trimmed or not, under any rules. |
| LimitLaws.TrimmerMissesEscapes | packages/core/src/strip.ts:207-230 | A MySQL statement whose trimmed form swallows the appended cap. |
| LimitLaws.TrimmerKeepsSeparator | packages/core/src/strip.ts:207-230 | A MySQL statement whose trimmed form keeps its `;`, so that the cap lands behind it and the text still reads as limited. |
| SpliceLaws.NoiseUnchanged | packages/core/src/strip.ts:162-264 | Replacing a word anywhere, in a span or outside, changes nothing about trailing noise, under any rules. |
| LimitRewrite.ReplaceFirstAll | packages/core/src/guard.ts:1070-1070 | The unanchored replace edits the first raw match, or nothing. |
| LimitRewrite.RewriteHitsIff | packages/core/src/guard.ts:1065-1074 | The unanchored rewrite sets the statement's own clause iff the first raw `limit all` ends in the ALL of the located one. |
| LimitRewrite.AnchoredHits | packages/core/src/guard.ts:1071-1072 | The anchored rewrite sets the statement's own clause whenever it rewrites. |
| LimitRewrite.LowerHitsIff | packages/core/src/guard.ts:725-741 | Lowering sets the statement's own count iff the last visible count is its own. |
| LimitRewrite.OwnEditReads | packages/core/src/guard.ts:749-771 | Set to n, the own clause is located in the same place and reads as n. |
| LimitMisses.FirstOfTwoIsRewritten | packages/core/src/guard.ts:1065-1074 | In text without quotes and comments, balanced around an earlier `LIMIT ALL` that is the first raw match, the earlier one is rewritten and not the statement's own. |
| LimitMisses.SubqueryIsRewritten | packages/core/src/guard.ts:1065-1074 | A statement whose subquery is capped in its place. |
| LimitMisses.LiteralIsRewritten | packages/core/src/guard.ts:1065-1074 | Where the first raw match is the literal 'limit all', the only quotes of its statement, the literal is rewritten and not the statement's own clause. |
| LimitMisses.SelectedLiteral | packages/core/src/guard.ts:1065-1074 | A statement that then returns another value. |
| GuardLimit.HitsIff | packages/core/src/guard.ts:1029-1084 | A limit the guard wrote is the statement's own iff the parser reads the limit the text shows and the appended cap binds, the last visible count is its own, or the first raw `limit all` is. |
| GuardLimit.GuardTwice | packages/core/src/guard.ts:1029-1093 | Where what the guard wrote is the statement's own limit, guarding the guarded text trims nothing, edits nothing and reports no limit of its own; on Oracle for the translated statement and its FETCH count. What the guard blocks and what it lets out is stated by BlockedIff, CapLaw and FetchCapLaw. |
| GuardLimit.GuardedRows | packages/core/src/guard.ts:1029-1093 | If so, a guarded statement returns the original's rows, or their first `maxRows` where the guard capped it. |
| GuardOutcome.BlockedIff | packages/core/src/guard.ts:1029-1093 | The row cap blocks a statement iff nothing is left of it, Oracle's translation is refused, or, outside an EXPLAIN, its limit cannot be read or its LIMIT ALL has no raw match to rewrite. |
| GuardOutcome.CapLaw | packages/core/src/guard.ts:1029-1093 | Whatever it allows outside an EXPLAIN reads as limited to at most the cap, or was left as written because no visible count is above the cap; and the two flags say which edit was made. |
| GuardOutcome.FetchCapLaw | packages/core/src/guard.ts:1029-1093 | On Oracle the FETCH count of whatever is allowed is at most the cap; only that count is changed, and the flag says so. |
| GuardAgain.MaskFollows | packages/core/src/strip.ts:18-143 | Replacing a word anywhere replaces it in the mask where it shows, and blanks by blanks where it does not. |
| GuardAgain.MissStaysAll | packages/core/src/guard.ts:1065-1074 | A rewrite that misses leaves the statement's own LIMIT ALL located and unbounded. |
| GuardAgain.LoweredStays | packages/core/src/guard.ts:725-741 | Whichever count is lowered, the located clause still reads as a count and nothing is left to lower. |
| GuardAgain.UnboundCap | packages/core/src/guard.ts:1050-1053 | A cap appended inside a span or inside parentheses leaves the statement without a limit. |
| GuardAgain.GuardTwiceIff | packages/core/src/guard.ts:1029-1093 | The exact condition under which a second guarding changes nothing, where the parser reads the limit the text shows. |
| RowCap.ClampedPolicy | packages/core/src/row-cap.ts:10-14 | Whatever is requested, the policy cap is between 1 and 100000 and never above the request. |
| RowCap.ClampExact | packages/core/src/row-cap.ts:10-14 | Exactly: the request rounded down and at most 100000, if it is a finite number from one up; the fallback otherwise. |
| RowCap.RefusedIff | packages/core/src/engine.ts:484-546 | `run()` runs nothing iff one of the two guardings blocks; `execute` iff its own does. |
| RowCap.RowsDelivered | packages/core/src/engine.ts:484-546 | Where the edit is of the statement's own clause, `run()` delivers its first rows, as many as asked for and the policy allow. |
| RowCap.PrefixOnly | packages/core/src/engine.ts:484-546 | Rows are only ever missing from the end, if the guard's edit is of the statement's own clause. |
| RowCap.TruncatedIff | packages/core/src/engine.ts:484-546 | With the verdict kept and such an edit, `truncated` iff the cap is exceeded, or reached under a limit the guard wrote. |
| RowCap.SilentIff | packages/core/src/engine.ts:484-546 | The exact condition under which rows go missing unsaid, for every cap and path and every statement whose own clause was edited. |
| RowCap.NeverSilentlyCut | packages/core/src/engine.ts:1130-1138 | `run()` of such an answer never cuts silently for any cap that is a number, infinities included. |
| RowCap.BoundedIff | packages/postgres/src/index.ts:254-257 | For any statement and database, the exact condition under which no more rows than the policy allows reach the reader. |
| RowCap.NegativeCapLeaks | packages/postgres/src/index.ts:254-257 | With a cap of -1 every result above the policy's cap loses just its last row. |
| SilentCuts.NeverSilentIff | packages/core/src/engine.ts:484-546 | For every numeric cap, in all databases that honour limits nothing goes missing unsaid iff the guard edits the statement's own clause, blocks its own result, or the cap allows no row. |
| SilentCuts.MissCuts | packages/core/src/engine.ts:484-546 | Any other edit: a database that honours limits in which the statement has a row and `run()` returns none with `truncated` false. |
| SilentCuts.CoreKept | packages/core/src/guard.ts:1029-1093 | Setting a statement's own limit changes nothing else about it, and the text then reads as that limit. |
| SilentCuts.MissTells | packages/core/src/guard.ts:1029-1093 | What runs after a missed edit differs from the statement in more than its own limit. |
| SilentCuts.LowerMissTells | packages/core/src/guard.ts:725-741 | Lowering a count that is not the statement's own changes the statement apart from its own count. |
| SilentCuts.SubqueryCutsSilently | packages/core/src/engine.ts:1130-1138 | A statement whose subquery is capped instead, the two guardings of it, and a database that honours limits in which its row is lost unsaid. |
| SilentCuts.TextParserCuts | packages/core/src/engine.ts:1130-1138 | With a parser that reads every limit off the text, that statement refutes "never silently cut" outright. |
| GuardWalk.WalkContext.Walk | packages/core/src/guard.ts:607-699 | The walk leaves in its context the first violation in walk order, or the one already there. |
| GuardWalk.CheckIff | packages/core/src/guard.ts:607-699 | No violation iff every value on every path is within the depth and no node is disallowed. |
| GuardWalk.LocalIff | packages/core/src/guard.ts:607-699 | A node is disallowed iff it is a write statement, a SELECT INTO, a relation named like a file, a sequence pseudo-column on Oracle, or a call of a denied function, each told from the node's own members. |
| GuardWalk.DeniedIff | packages/core/src/guard.ts:607-699 | A function is denied by its name, by what follows its last dot, or by how either starts or the last part ends. |
| GuardWalk.DenySetIff | packages/core/src/guard.ts:440-455 | Which functions a policy denies: the engine's own, DuckDB's two lists on DuckDB only, the file functions unless allowed, and the caller's in any case. |
| GuardWalk.PrefixesIff | packages/core/src/guard.ts:1003-1027 | The prefixes and suffixes it denies, those of DuckDB on DuckDB only. |
| GuardWalk.DefaultIsBuiltIff | packages/core/src/guard.ts:447-455 | The precomputed deny-set equals the built one iff its names are in lower case. |
| GuardWalk.DenyingOnlyRejects | packages/core/src/guard.ts:1003-1027 | Adding denied functions never turns a rejected statement into an accepted one. |
| GuardWalk.AllowingOnlyAccepts | packages/core/src/guard.ts:1003-1027 | With lower-case lists, allowing file functions never turns an accepted statement into a rejected one. |
| CatalogCache.RunKeepsInv | packages/core/src/engine.ts:446-482 | Every interleaving of reads, refreshes, successes and failures keeps the cache invariant. |
| CatalogCache.SingleFlight | packages/core/src/engine.ts:446-482 | At most one read of the current generation runs, and it is the shared one. |
| CatalogCache.WriteIffNewest | packages/core/src/engine.ts:456-474 | A settling read writes the cache iff it is usable and no refresh started after it did. |
| CatalogCache.SettleKeepsOthersInflight | packages/core/src/engine.ts:475-478 | A finishing read removes no in-flight entry but its own. |
| CatalogCache.CacheMovesForward | packages/core/src/engine.ts:446-482 | Over any run a cached catalog is never replaced by one whose read started earlier. |
| CatalogCache.HitsAfterRefresh | packages/core/src/engine.ts:446-482 | Once a read is cached, every later hit in any run returns what that read or a later one returned. |
| CatalogCache.CacheIs | packages/core/src/engine.ts:446-482 | Over any run the cache of a connection is what the last usable read that no refresh overtook brought, for half a minute if it came with warnings and five minutes otherwise. |
| CatalogCache.CallAnswers | packages/core/src/engine.ts:446-482 | Over any run a call is answered with that catalog while it lives unless a refresh is asked for, then with the read under way that no refresh has overtaken, and starts a read only when there is neither. |
| CatalogCache.UnderWayIff | packages/core/src/engine.ts:446-482 | A read is under way from the call that starts it to its own settlement, which frees its in-flight entry whatever the outcome. |
| CatalogCache.CatalogStore.GetCatalog | packages/core/src/engine.ts:446-481 | The code up to the await does the call step and keeps the invariant. |
| CatalogCache.CatalogStore.Finish | packages/core/src/engine.ts:457-479 | The continuation does the settle step and keeps the invariant. |
| AskGate.RunKeepsInv | packages/react/src/useAskSql.ts:136-313 | Every interleaving keeps: `busy` iff the gate is held, by a live call whose controller is the current one; a waiting call is aborted iff superseded; at most 200 turns; no turn spins unawaited. |
| AskGate.OneOwner | packages/react/src/useAskSql.ts:125-134 | At most one waiting call is not aborted, and it holds the gate and the controller. |
| AskGate.SupersededTouchesNothing | packages/react/src/useAskSql.ts:136-313 | A step of a superseded call changes no gate, no busy flag, no controller, and starts no query. |
| AskGate.SupersededForGood | packages/react/src/useAskSql.ts:136-313 | Over any run a superseded call never holds the gate again and never starts another query. |
| AskGate.QueriesStartOwned | packages/react/src/useAskSql.ts:140-186 | A query starts one at a time, by the gate's owner, under the current controller; which events may start one, and with which SQL, is stated by QueriesExactly. |
| AskGate.CancelReaches | packages/react/src/useAskSql.ts:434-439 | After a cancel the gate is free and every waiting call is aborted. |
| AskGate.NothingSpinsAlone | packages/react/src/useAskSql.ts:255-269 | With nothing waiting, no turn is left thinking or running. |
| AskGate.LateEventsAfterReset | packages/react/src/useAskSql.ts:441-447 | After a reset and any run, a late event of an earlier call changes no turn, gate or controller, unless it is the query of a turn not yet numbered. |
| AskGate.LateEventsIff | packages/react/src/useAskSql.ts:441-447 | And exactly then: the late result of such a query lands on the turn that is given its id later. |
| AskGate.OwnerCanFinish | packages/react/src/useAskSql.ts:302-313 | Whoever holds the gate can release it within three steps of its own. |
| AskGate.TrimTranscript | packages/react/src/useAskSql.ts:86-93 | Keeps the last 200 turns and drops rows from all but the last 20. |
| AskHistory.QueriesExactly | packages/react/src/useAskSql.ts:140-397 | Over any run, what an event starts, exactly: `run` its own SQL on a free gate, `editSql` likewise if approval is off, and the end of an unaborted ask with approval off the SQL last streamed to it; nothing else starts anything. |
| AskHistory.EveryQueryLicensed | packages/react/src/useAskSql.ts:140-397 | Every query of a run was started by one of those three events, with that turn and that SQL. |
| AskHistory.OnlyApproved | packages/react/src/useAskSql.ts:302-397 | If every ask and edit requires approval, every query comes from a `run` with that very turn and SQL. |
| AskHistory.TurnsFollow | packages/react/src/useAskSql.ts:140-439 | What each event does to each turn: the turn it is about gets exactly what the event tells, every other stays. |
| AskHistory.AskShows | packages/react/src/useAskSql.ts:188-226 | An accepted question stands last, thinking, under the next number; the last 199 others stay, rows apart. |
| AskHistory.QuietSteps | packages/react/src/useAskSql.ts:188-447 | A refused question changes no turn, and a reset leaves none. |
| AskHistory.NothingInvented | packages/react/src/useAskSql.ts:140-397 | Over any run the SQL a turn shows was streamed to, edited on or proposed for that turn, and its rows are the result of a query started for it. |
| AskHistory.AllHeard | packages/react/src/useAskSql.ts:227-356 | Over any run a waiting call's locals are what its own stream has told it: the last 400 characters of its tokens, its last error, whether it has settled. |
| AskGate.AskHook.Ask | packages/react/src/useAskSql.ts:188-226 | `ask` up to its stream does the ask step and keeps the invariant. |
| AskGate.AskHook.OnChatEvent | packages/react/src/useAskSql.ts:227-356 | One stream event does the stream step. |
| AskGate.AskHook.OnStreamEnd | packages/react/src/useAskSql.ts:255-313 | The end of the stream does the end step, fallback and auto-run included: the step that by QueriesExactly starts the streamed SQL iff the ask was auto-run and is not aborted. |
| AskGate.AskHook.OnStreamThrow | packages/react/src/useAskSql.ts:237-313 | A failing stream does the throw step. |
| AskGate.AskHook.OnTick | packages/react/src/useAskSql.ts:322-334 | The flush timer does the tick step. |
| AskGate.AskHook.OnExplained | packages/react/src/useAskSql.ts:281-313 | A schema answer does the fallback step. |
| AskGate.AskHook.OnExplainFailed | packages/react/src/useAskSql.ts:295-313 | A failed schema answer does the fallback step. |
| AskGate.AskHook.DoRun | packages/react/src/useAskSql.ts:140-155 | `doRun` up to its await takes a new controller and marks the turn. |
| AskGate.AskHook.OnExecuted | packages/react/src/useAskSql.ts:156-184 | A finished query does the execute step. |
| AskGate.AskHook.OnExecuteFailed | packages/react/src/useAskSql.ts:157-184 | A failed query does the execute step. |
| AskGate.AskHook.OnResume | packages/react/src/useAskSql.ts:310-313 | The caller of `doRun` releases only its own gate. |
| AskGate.AskHook.Run | packages/react/src/useAskSql.ts:361-378 | `run` does the run step. |
| AskGate.AskHook.EditSql | packages/react/src/useAskSql.ts:380-397 | `editSql` does the edit step. |
| AskGate.AskHook.Cancel | packages/react/src/useAskSql.ts:434-439 | `cancel` does the cancel step. |
| AskGate.AskHook.Reset | packages/react/src/useAskSql.ts:441-447 | `reset` does the reset step. |
| EventBridge.NeverSettledAndWaiting | packages/server/src/handler.ts:525-583 | Under every schedule, a generator that has something to deliver is not waiting. |
| EventBridge.StreamShape | packages/server/src/handler.ts:525-583 | Under every schedule a finished stream is the stage and token events emitted, in order, all those before settlement among them; then the answer's SQL, explanation and flag, or the failure's message; then done; and nothing else. |
| EventBridge.InterimPrefix | packages/server/src/handler.ts:525-583 | Before the result, the i-th event yielded carries the i-th stage or token emitted. |
| EventBridge.SettledStreamEnds | packages/server/src/handler.ts:525-583 | Once settled, at most queue length plus three pulls end the stream. |
| EventBridge.StepExtendsOutput | packages/server/src/handler.ts:441-503 | Nothing yielded is taken back. |
| EventBridge.ChatStream.OnEvent | packages/server/src/handler.ts:528-536 | The engine's callback does the push step. |
| EventBridge.ChatStream.OnSettled | packages/server/src/handler.ts:547-556 | Settlement does the settle step. |
| EventBridge.ChatStream.DrainQueue | packages/server/src/handler.ts:558-564 | The drain loop skips to the first event that is shown. |
| EventBridge.ChatStream.Pull | packages/server/src/handler.ts:558-583 | One resumption of the generator does the next step and yields what that step adds; over a run that is StreamShape. |
| ConnectionRegistry.RunKeepsInv | packages/server/src/handler.ts:299-404 | Every interleaving keeps: SQL ids distinct, SQL and Mongo ids disjoint, dynamic ids registered, configured ids never dynamic, the engine that of the list, each reservation of one create, what is registered open. |
| ConnectionRegistry.StartInv | packages/server/src/handler.ts:135-145 | The constructor establishes this from distinct, disjoint configured ids. |
| ConnectionRegistry.ConfiguredForGood | packages/server/src/handler.ts:364-404 | No run removes, replaces or lets delete a configured connection. |
| ConnectionRegistry.StepKeepsClean | packages/server/src/handler.ts:390-404 | A step keeps every run-time connection deletable and none leaked iff it is not a stale delete. |
| ConnectionRegistry.RegistryClean | packages/server/src/handler.ts:299-404 | If deletes of one id never overlap, every run from a good start is clean. |
| ConnectionRegistry.OverlapBreaks | packages/server/src/handler.ts:390-404 | From every clean state, two overlapping deletes with a re-creation between them break it. |
| ConnectionRegistry.OrphanForGood | packages/server/src/handler.ts:380-389 | A connection left out of the dynamic ids can never be deleted. |
| ConnectionRegistry.IndexWithout | packages/server/src/handler.ts:157-162 | The id map of the filtered list is the old map without that id. |
| RegistryHistory.NamedIff | packages/server/src/handler.ts:299-404 | Over any run an id names a connection iff a create of that id opened it, or it was configured, and no delete of that id and kind has closed since. |
| RegistryHistory.DeletableIff | packages/server/src/handler.ts:343-404 | An id may be deleted iff a create of it has opened a connection and no delete of it has closed one since. |
| RegistryHistory.UnderWayIff | packages/server/src/handler.ts:331-404 | A request is under way iff it was accepted, a create for its trimmed id or the next free name if neither registered nor reserved, a delete for a dynamic id and the connection that it named, and its driver call has not come back. |
| RegistryHistory.ReservedIff | packages/server/src/handler.ts:333-361 | An id is reserved iff a create of it is under way. |
| RegistryHistory.NumbersTaken | packages/server/src/handler.ts:331-331 | Each create without an id takes the next number, accepted or not. |
| RegistryHistory.LastSays | packages/server/src/handler.ts:299-404 | The principle behind these: what some events turn on and others off holds after a run iff it was turned on last, or held from the start and was never turned off. |
| ConnectionRegistry.Registry.CreateConnection | packages/server/src/handler.ts:331-341 | Create up to its await does the reserve step. |
| ConnectionRegistry.Registry.FinishCreate | packages/server/src/handler.ts:343-361 | Create after its awaits registers, or not, and ends the reservation. |
| ConnectionRegistry.Registry.DeleteConnection | packages/server/src/handler.ts:379-400 | Delete up to its await does the delete step. |
| ConnectionRegistry.Registry.FinishDelete | packages/server/src/handler.ts:392-403 | Delete after its await unregisters what the id names by then. |
| ConnectionRegistry.Registry.MongoEngine | packages/server/src/handler.ts:169-188 | A Mongo engine always talks to the connection its id names now. |
| RepairLoop.CallModel | packages/core/src/llm.ts:266-340 | The retry loop ends with the specified result after at most maxRetries + 2 requests. |
| RepairLoop.RequestsJustified | packages/core/src/llm.ts:273-339 | No request follows a cancellation, a reply or a timeout; each repetition follows a transient or a temperature failure. |
| RepairLoop.CallBoundMet | packages/core/src/llm.ts:273-339 | The bound on requests is met. |
| RepairLoop.RunAsk | packages/core/src/engine.ts:698-1057 | The repair loop ends after at most six calls with the specified outcome, sound and disclosed; that outcome is spelled out by AskExact. |
| RepairLoop.Examine | packages/core/src/engine.ts:830-1101 | The chain of floors answers, fails or asks for a repair as specified; which of these, field by field, is stated by AskExact. |
| RepairLoop.AskBounded | packages/core/src/engine.ts:698-1057 | An answer is the last call's statement, allowed, with no unknown table or column, floors clean below two repairs, the rest in its notes; calls are repairs plus at most three refunds plus one. |
| RepairLoop.SilentMeansMute | packages/core/src/engine.ts:740-794 | A model is called unreachable only if every reply it gave was blank. |
| RepairLoop.TotalBound | packages/core/src/engine.ts:698-1057 | One question costs at most 6 (maxRetries + 2) provider requests. |
| RepairLoop.SixCalls | packages/core/src/engine.ts:698-1057 | The bound of six calls is met, by an answer. |
| RepairOutcome.CallExact | packages/core/src/llm.ts:266-340 | A model call makes a request after the one before iff that one failed transiently with retries left or over the temperature, stops before the first its caller has cancelled, and ends as its last request says. |
| RepairOutcome.NoRequestIff | packages/core/src/llm.ts:273-339 | Nothing is requested iff the caller has already cancelled. |
| RepairOutcome.AskExact | packages/core/src/engine.ts:698-1138 | Everything a question comes to: which replies the loop goes on from, with which of them a repair is spent, and how it ends; a statement no floor objects to is answered at once, with the repairs spent so far and exactly the notes its floors call for. |
| RepairOutcome.CleanAtOnce | packages/core/src/engine.ts:1108-1138 | In particular a clean first reply is the answer after one call, with no repair. |
| CodeLiterals.AttributionIff | packages/core/src/semantics.ts:313-363 | On every joined row of every database a reference reads the table it is attributed to iff every FROM item it can be read from, merged join columns included, is that table and no other. |
| CodeLiterals.AnalysisSound | packages/core/src/semantics.ts:340-413 | If so for a reported literal, on every joined row that satisfies WHERE some FROM item of that table holds it in that column. |
| CodeLiterals.ComparisonIff | packages/core/src/semantics.ts:340-413 | For a single comparison what is reported holds on every joined row iff its reference can be read from that table only. |
| CodeLiterals.ConjunctionIff | packages/core/src/semantics.ts:340-413 | The same for a comparison among any conditions the analysis does not look into, whatever these mean. |
| CodeLiterals.ReportedHolds | packages/core/src/semantics.ts:340-413 | Every literal `codeLiterals` reports, by references that can only be read from its table, stands in its column on every joined row that satisfies WHERE. |
| CodeLiterals.ReportedNever | packages/core/src/engine.ts:1063-1079 | And if the probe lacks it, no joined row satisfies WHERE. |
| CodeLiterals.NoRowQualifies | packages/core/src/engine.ts:1063-1079 | If the probe judges such a literal impossible, no joined row satisfies WHERE, whatever the other operators mean. |
| CodeLiterals.ProbeComplete | packages/core/src/engine.ts:387-414 | A probe of at most 25 rows holds every distinct value. |
| CodeLiterals.WalkComplete | packages/core/src/semantics.ts:348-401 | What is reported is, up to its key, exactly what the AND-conjuncts within depth 40 would report, without repetition. |
| CodeMeaning.ReportedIff | packages/core/src/semantics.ts:350-377 | A comparison is reported iff it sets a column against a whole number, the name is not that of an id, a measure or a moment, its declared types agree on an integer, and it is no key of the ordinary table it is taken to read. |
| CodeMeaning.OwnerMeans | packages/core/src/semantics.ts:312-333 | A qualified reference is taken to read the first table so named, if it has the column; a bare one the only table in scope, or of the catalog if nothing is in scope, that has it. |
| CodeMeaning.InScopeMeans | packages/core/src/semantics.ts:403-411 | A name in scope is the alias or the table name of a FROM item and stands for the last such item's table. |
| CodeMeaning.DbTypeMeans | packages/core/src/semantics.ts:450-462 | A column name has a type iff every type declared for it anywhere is the same up to case. |
| CodeMeaning.KeyMeans | packages/core/src/semantics.ts:373-375 | Two reports count as one iff their tables and columns read the same up to case and their numbers are equal. |
| CodeMeaning.ImpossibleIff | packages/core/src/engine.ts:387-414 | Given what the probe may return, a literal is judged impossible iff the column holds between one and 25 distinct values and it is none of them. |
| CodeScope.ScopedIsCertain | packages/core/src/semantics.ts:313-363 | In a statement that names stored tables by their own schemas, with no shadowing, alias clash or merged column, over distinct table names, every attribution is certain. |
| CodeScope.ReportedSound | packages/core/src/semantics.ts:340-413 | In such a statement every literal `codeLiterals` reports stands in its column on every joined row that satisfies WHERE. |
| CodeScope.ReportedNone | packages/core/src/engine.ts:1063-1079 | And if the probe lacks it, no joined row satisfies WHERE: the caveat is true. |
| CodeWitnesses.DerivedOnlyFails | packages/core/src/semantics.ts:324-333 | A statement over a derived table alone is reported against a stored table. |
| CodeWitnesses.ShadowFails | packages/core/src/semantics.ts:403-411 | A CTE named like a stored table is reported against that table. |
| CodeWitnesses.MergedFails | packages/core/src/semantics.ts:324-333 | A derived table LEFT JOINed to a stored one USING the column is reported against the stored one. |
| CodeWitnesses.AliasClashFails | packages/core/src/semantics.ts:403-411 | An alias that is another table's name attributes a column to the wrong table. |
| CodeWitnesses.DuplicateNameFails | packages/core/src/semantics.ts:313-317 | With a table of one name in two schemas, a reference to the second is reported against the first. |
| SchemaPruning.BuildNeighbors | packages/core/src/catalog.ts:465-483 | The adjacency map has an edge exactly where a foreign key joins two tables, in either direction. |
| SchemaPruning.LinkedSymmetric | packages/core/src/catalog.ts:472-483 | The graph is undirected. |
| SchemaPruning.TargetMeans | packages/core/src/catalog.ts:465-477 | A foreign key leads to the last table of that schema and name, else to the last of that bare name, else nowhere. |
| SchemaPruning.Expand | packages/core/src/catalog.ts:485-494 | The closure is the ball of radius two around the seeds, or the first smaller one that fills the table cap. |
| SchemaPruning.BallIsReach | packages/core/src/catalog.ts:485-494 | The ball of radius d is what some walk of at most d hops reaches. |
| SchemaPruning.ShortlistIff | packages/core/src/catalog.ts:496-497 | A table is a candidate iff it matches or lies in the closure, or, where there is no such table, is among the first `maxTables`. |
| SchemaPruning.Pack | packages/core/src/catalog.ts:503-519 | Packing keeps order, the table cap and the token budget, takes the first candidate, and passes nothing over that still fits. |
| SchemaPruning.ChargeMeans | packages/core/src/catalog.ts:502-519 | The budget is the larger of 500 and the limit less 400; the first table is charged at most half of it, any other what it costs. |
| SchemaPruning.Prune | packages/core/src/catalog.ts:485-519 | What is kept is a packing of the candidates around the closure, sorted a second time by key. |
| SchemaPruning.PruneTables | packages/core/src/catalog.ts:463-519 | Graph, closure, second sort and packing together: a packing of the closure of the matching tables in the graph of the foreign keys; at most `maxTables` tables, each within two foreign keys of a table that matches, or nothing matches. |
| SchemaPruning.ResortedSameIff | packages/core/src/catalog.ts:499-501 | The second sort changes nothing iff the keys' positions already ascend. |
| SchemaPruning.DuplicateKeysReorder | packages/core/src/catalog.ts:499-501 | Two tables of one key are sorted out of score order. |
| SchemaPruning.PrunedShape | packages/core/src/catalog.ts:496-519 | Where the keys' positions ascend along the candidates, what is kept is ordered by score, within the caps, and holds the best table. |
| SchemaPruning.DistinctByPlace | packages/core/src/catalog.ts:499-501 | With distinct keys they always ascend. |
| SchemaPruning.PlaceIsLast | packages/core/src/catalog.ts:499-501 | A table is sorted by where the last table of its key stands. |
| SchemaPruning.OrderedSorted | packages/core/src/catalog.ts:402-408 | The column order is by rank, then declaration, and has every column once. |
| SchemaPruning.TrimColumns | packages/core/src/catalog.ts:390-431 | The columns shown are a prefix of that order in declaration order, at least twelve, maximal, and within budget when more than twelve. |
| SchemaPruning.ChargeCoversEstimate | packages/core/src/catalog.ts:377-417 | Charging columns one by one never undercuts the estimate of the whole. |
| ProbeBudget.WithColumnHints | packages/postgres/src/introspect.ts:108-168 | At most 200 probes in all; each table probes its first candidates, as many as its share and the rest of the cap allow; comments are never overwritten. |
| ProbeBudget.ProbeColumns | packages/postgres/src/introspect.ts:120-163 | One table's loop spends min(share, candidates), failures included. |
| ProbeBudget.NobodyStarves | packages/core/src/column-hints.ts:145-158 | For at most 200 tables every base table gets exactly min(share, candidates). |
| ProbeBudget.OneEachUntilSpent | packages/core/src/column-hints.ts:145-158 | Beyond 200 tables each gets one until the cap is spent. |
| ProbeBudget.ShareMeans | packages/core/src/column-hints.ts:145-158 | The share is the largest number up to four that all tables can have, and one when there are more than 200. |
| ProbeBudget.OnlyUndescribed | packages/postgres/src/introspect.ts:108-168 | Only comments change, only of base tables' moment and JSON columns without one, and only to what their own probe said. |
| ProbeBudget.ProbedIsDescribed | packages/postgres/src/introspect.ts:120-163 | A probed column whose probe says something gets that comment. |
| EditDistance.Levenshtein | packages/core/src/schema-match.ts:139-148 | The table computes the recurrence. |
| EditDistance.LevIsLeast | packages/core/src/schema-match.ts:139-148 | The distance is the least number of single insertions, deletions and substitutions. |
| EditDistance.Symmetric | packages/core/src/schema-match.ts:139-148 | The distance is symmetric. |
| EditDistance.ZeroIffEqual | packages/core/src/schema-match.ts:139-148 | It is zero iff the strings are equal. |
| EditDistance.Triangle | packages/core/src/schema-match.ts:139-148 | It satisfies the triangle inequality. |
| EditDistance.ClosestTableName | packages/core/src/schema-match.ts:151-167 | None iff no pair of word and table qualifies; otherwise the table of the first pair at the least qualifying distance. |
| EditDistance.ThresholdMeans | packages/core/src/schema-match.ts:159-159 | One edit is forgiven, and from eight characters on one for every four of the shorter name. |
| Sse.SseParser.Push | packages/react/src/client.ts:75-96 | A push yields the events of all complete frames and keeps the incomplete rest. |
| Sse.ParsedConcat | packages/react/src/client.ts:75-96 | Parsing x and then y is parsing x + y. |
| Sse.ChunksDoNotMatter | packages/react/src/client.ts:69-96 | However the text is split into chunks, the events are those of the whole. |
| Sse.WireRoundTrip | packages/server/src/cli.ts:168-171 | The parser reads back exactly the events written, in order, with nothing left over. |
| Sse.StreamRoundTrip | packages/server/src/express.ts:126-130 | So it does with heartbeats anywhere between frames and any split into chunks. |
| Sse.CutStream | packages/react/src/client.ts:73-96 | A stream cut off anywhere yields a prefix of the events. |
| Sse.FrameIs | packages/server/src/express.ts:126-130 | What is written for an event and for a heartbeat, character by character. |
| Sse.LinesRead | packages/react/src/client.ts:82-91 | Of a frame's lines those that start with `data:` are read, without that prefix and the white space around, joined by newlines; any other line is passed over. |
| Sse.BadPayload | packages/react/src/client.ts:87-93 | A payload that does not parse is passed over, and what follows it is still read. |
| ReasoningFilter.Filter.Push | packages/core/src/extract.ts:89-118 | A push does the filter's step. |
| ReasoningFilter.NarrateConcat | packages/core/src/extract.ts:106-115 | Narrating on with what was held back is narrating from the start. |
| ReasoningFilter.ChunksDoNotMatterIff | packages/core/src/extract.ts:82-119 | Every split shows what one push shows iff no opening tag ends past the hold-back. |
| ReasoningFilter.ShownMeans | packages/core/src/extract.ts:82-119 | What is shown of a whole reply: behind an opening tag what follows the first closing one, or nothing; of a reply too short to tell, nothing; of any other, all of it. |
| ReasoningFilter.LateSplit | packages/core/src/extract.ts:93-104 | Where one does, a split that shows the whole narration. |
| ReasoningFilter.OneSpaceIsSafe | packages/core/src/extract.ts:93-104 | At most one leading white-space character is always safe. |
| ZipReader.FindEndOfCentralDirectory | packages/browser-extension/src/zip.ts:19-27 | The last signature in the last 65557 bytes, or failure iff there is none. |
| ZipReader.ListZipEntries | packages/browser-extension/src/zip.ts:30-60 | The listing is the directory the found end record points to, with every read in bounds or a failure. |
| ZipReader.RecordMeans | packages/browser-extension/src/zip.ts:39-59 | What a directory record lists, by the offsets of its fields, where the next one starts, and exactly how reading it fails. |
| ZipReader.SignaturesAre | packages/browser-extension/src/zip.ts:7-8 | The two signatures are `PK` and the bytes 5, 6 or 1, 2. |
| ZipReader.EndFoundIff | packages/browser-extension/src/zip.ts:19-27 | The reader stops at the end record that was written iff no four bytes of that record and its comment, past its start and with room for a record behind them, read as the signature: a condition on what the writer chooses. |
| ZipReader.ArchiveRoundTrip | packages/browser-extension/src/zip.ts:30-60 | Records laid out one after the other are read back entry for entry from where the end record says. |
| ZipReader.ListedIff | packages/browser-extension/src/zip.ts:30-60 | The listing comes from the record that was written, and is what was written, iff that condition holds; always without a comment. |
| ZipReader.CommentMisleads | packages/browser-extension/src/zip.ts:19-27 | A comment that is an end record hides every entry of any archive. |
| ZipReader.OffsetMisleads | packages/browser-extension/src/zip.ts:19-27 | With the directory at the offset that spells the signature, every comment of 16 bytes or more misleads the reader. |
| ZipReader.ListArchive | packages/browser-extension/src/zip.ts:30-60 | Listing an archive written so yields its entries in order. |
| ZipReader.CopyBounded | packages/browser-extension/src/zip.ts:93-107 | Never writes past the declared size; returns the concatenation of the chunks iff their total is that size. |

## Left out

- The SQL parser: a parsed statement is an arbitrary value (`GuardWalk`), an expression tree (`CodeLiterals`) or, for the row cap, the answers it gives about a text (`GuardLimit.Parser`). The limit it reports for a plain statement is one of these answers; the results that follow an edit ask that it is the one the text shows outside all parentheses. A single parenthesised `(SELECT ... LIMIT n)`, where it is not, is guarded as in the source and has no further theorem.
- The Oracle patterns: what a trailing `LIMIT n` is translated to, which LIMITs are refused and where a FETCH count stands are answers of the parser. They are asked to leave a translated statement alone and to find a count again once it is replaced (`GuardLimit.FetchLaw`, `GuardLimit.TailLaw`).
- What a LIMIT does in a database: a statement's own limit, where the parser reads the one the text shows, takes a prefix of its rows (`GuardLimit.LimitIsPrefix`).
- Drivers, sockets, HTTP routing, authentication hooks, timers: nondeterministic steps or parameters.
- `ensureConnected` in engine.ts: a single-flight map without generations, weaker than the catalog cache; and `stripSampledValues`, folded into what a read returns. An `introspect` that throws before it returns a promise is not modelled.
- The regular-expression classifiers, prompt builders, error-message mapping, provider resolution and name quoting: fixed patterns with no crisp specification. Where they decide a branch they are parameters.
- `hasMysqlExecutableComment`, `sqliteRecursiveWedge` and the allowlisted SHOW and PRAGMA forms of guard.ts.
- `planFor` and unmounting in useAskSql.ts, and the turn fields collection, explanation, autoLimited and plan. React's batching is modelled as updates applied in order; `run` takes whatever SQL the caller's render showed.
- `LocalTransport.chat` in client.ts: the shape of the server's event bridge without its skipped events. A consumer that abandons the generator is not modelled.
- CodeLiterals.AttributionIff: join conditions and kinds are not interpreted. Any combination of rows, each perhaps the NULL row of an outer join, is a joined row, so a column merged by an inner join, where both sides agree, counts as uncertain. A later arm of a UNION is a statement of its own, and literals are exact integers.
- CodeLiterals.ConjunctionIff: the converse is for one comparison beside uninterpreted conditions; further comparisons may exclude the failing row. No two catalog entries have the same schema and name.
- GuardOutcome.CapLaw: asks that the parser reads the limit the text shows and that the guard's edit is of the statement's own clause; what the others leave is in `GuardAgain` (`MissStaysAll`, `LoweredStays`, `UnboundCap`).
- RowCap.RowsDelivered: likewise; what a missed edit delivers is in `SilentCuts`.
- CodeMeaning.ImpossibleIff: the order in which columns are probed, two at most with one literal each, is not modelled.
- GuardLimit.GuardTwice: asks that no dollar-quoted string runs into the count, a text no SQL grammar accepts; so do GuardAgain.GuardTwiceIff and SilentCuts.NeverSilentIff, which also leave out Oracle and `LIMIT ALL, n`.
- RowCap.BoundedIff: the connector's clip is the PostgreSQL one; the other connectors' drivers also bound the fetch.
- RowCap.NeverSilentlyCut: false where the guard edits another clause, so it asks that the edit is of the statement's own, a condition on the text that `SilentCuts.NeverSilentIff` proves exact.
- ZipReader.ListArchive: false of an ambiguous archive (`CommentMisleads`), so it asks for the condition that `ListedIff` proves exact.
- SchemaPruning.PrunedShape: asks that the keys' positions ascend, without which it is false (`DuplicateKeysReorder`).
- SchemaPruning.PruneTables: takes the tables already scored and sorted by score, and their costs; the marker a trimmed table's comment gains is not charged, as in the source.
- EditDistance.ClosestTableName: takes the question's words already extracted.
- ZipReader: name decoding, the local header and the inflater itself.
- Strings are sequences of characters, not UTF-16 units; lower-casing is ASCII.
- The contents of the deny lists and reserved-word tables: constant parameters.
