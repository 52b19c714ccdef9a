# Elgon, modelled and proved in Dafny

Elgon is a Go web framework.  This project models the parts of it whose correctness is not visible
in any single function, and proves what they promise for every input and every run:

- the ORM's filter compiler and statement builders (`Where`, `Statements`), down to the characters a
  server gets and what it reads from them (`Sql`, `SqlText`, `WhereParse`, `WhereNames`,
  `WhereRefused`, `WhereText`, `StatementParse`, `StatementText`, `LikeText`), which key means what and
  which characters it becomes (`Spelling`, `FilterKeys`, `PrintedText`), and what that does to a table
  (`Database`, `Table`, `Repository`), also for many Upserts at once (`UpsertRaces`);
- the SQL-backed job queue shared by any number of workers (`DistributedQueue`,
  `QueueRuns`, `QueueOrder`, `Base64`);
- the router's mutable index (`Router`) against the plain list of registrations (`Routes`,
  `RouteMeaning`, `RoutePaths`), and the groups that feed it (`Groups`);
- the migration engine (`Migrations`, `MigrationEngine`, `MigrationRuns`) and the files it lives on
  (`MigrationNames`, `MigrationSpelling`, `NameWords`, `MigrationFiles`, `MigrationScripts`);
- OpenAPI schemas with a shared component map (`Schemas`, `SchemaShapes`, `OpenApi`, `OpenApiPaths`) and
  the text of their references (`JsonPointer`);
- two small concurrent objects (`InMemoryQueue`, `OrmCache`).

`dafny verify dfyconfig.toml` checks everything.

## How to read it

**Filters.**  A filter is a finite tree of entries.  `Where` compiles it to tokens, arguments and the
next placeholder number, loop by loop as the Go code does.  `WhereMeaning.Meaning` gives the tree a
value of its own in three-valued logic (section 8.12 of ISO/IEC 9075:1992); `Sql` holds an independent
reader with NOT binding tighter than AND and AND tighter than OR, and an evaluator.  `SqlText` prints
tokens as characters and splits characters into tokens again, as a server does that knows its keywords
and a set `reserved` of further words.  `WhereText.CompiledTextMeansTree` connects tree and text: the
few parentheses the compiler prints are enough; the text is read as it was meant when no column is a
word the server keeps for itself, and is no condition at all when one is.  `StatementParse` and `StatementText` do the same for
whole statements, and `Repository` runs them on a table whose statements may fail at any time.  The
comparison the engine uses on non-NULL values is a parameter of every result.

**Keys and words.**  The compiler and the meaning of a tree share the functions that tell keys apart.  What
they tell is stated without them: `Spelling` says letter by letter what a key spells, `FilterKeys` what
each word means, and `PrintedText` which characters go out for it.  `RoutePaths`, `MigrationSpelling`,
`NameWords`, `SchemaShapes` and `Groups.NestedTrace` do the same for patterns, file names, tags and
middleware.

**Go maps.**  `Where` and `Values` maps are lists of entries in the order the code visits them (sorted
keys).  The theorems quantify over all lists, so none depends on that order; distinctness of keys is
assumed only where a column is assigned.

**Concurrency.**  The queues, the client cache and concurrent Upserts are state machines over their
atomic steps: one SQL statement, one channel operation, one locked section.  A run is any sequence of enabled steps.  In
`DistributedQueue` every write may be applied and answered, not applied, or applied with the answer
lost, and a worker may crash between any two steps; every reading of the clock is a step of its own.

**Database failures** are nondeterministic choices inside `Server.Execute`, `Engine.ApplyOne` and
`Engine.RollbackOne`.  A statement or transaction that reports an error has changed nothing, unless it
took effect and only the answer was lost; a ghost result `lost` tells the two apart.

**Results that are negative.**  Some promises a reader might expect do not hold of the code.  Each has a
lemma with a witness and, where one exists, the exact condition:

- reserved words as columns: `CompiledTextMeansTree`, `TextReceivedIff`, witness `ReservedColumnUnread`;
- `LIKE` wildcards and the escape character in text operators: `TextOperatorsExact`, witnesses
  `WildcardBreaksText` and `BackslashBreaksText`;
- the shallow empty-filter guard: `UnconditionalDelete`, `UnconditionalUpdate`, witness `GuardIsShallow`;
- untrimmed patch keys in the fallback without RETURNING: `FallbackExact`, witness
  `UntrimmedKeyKeepsOldValue`;
- the fallback for no columns or a star: `StarFallbackExact`, witness `StarFallbackDropsColumns`, and
  `LogicalHintUnread` for filters with AND, OR or NOT;
- Upserts at the same time: `DuplicateExactlyWhenRaced`, witness `TwoUpsertsDuplicate`;
- a claim before the retry delay: `EarlyExactlyAfterRequeue`, witness `StaleSelectClaimsEarly`;
- shadowed routes: `HitsExactlyUnshadowed`, witness `AddingShadows`;
- doubled slashes in group prefixes: `GroupPathSegments` and `NestedPathSegments`, witness
  `DoubledSlashSplits`;
- `steps <= 0` in Down: `DownZeroClears`; a commit whose answer is lost: `DownUndoesUp`;
- generic and dialect-specific migration files: `SpecificWinsIff`, witness `GenericUpSpecificDown`;
- recursive model types: `EndsExactlyWhenUnwinding`, witnesses `SelfReferenceNeverEnds` and
  `SharedNameEndsEarly`;
- components registered under another type's name: `BuildFaithful`, witness `ForeignNameMisleads`;
- references to models with `/`, `~` or `%` in their names: `RefResolvesIff`, witness
  `GenericModelUnresolved`;
- a send overtaken by Close: `PanicExactlyAcrossClose`, witness `CloseCanOvertakeSend`.

The comment on `Load` in migrate/loader.go presents `0001_init.pg.up.sql` as the dialect-specific
variant of `0001_init.up.sql`; the code lets the generic file win.  The model follows the code.

## Model

| member | source | states |
|---|---|---|
| `WhereText.CompiledTextMeansTree` | orm/table.go:604-894 | for every accepted filter tree with a field condition, every dialect, engine and row: the characters sent, split into tokens by the server, bound to the arguments and parsed with NOT > AND > OR, are a condition exactly when no column at any depth is a keyword or reserved word, and then it evaluates to the tree's own three-valued meaning; the server reads the printed tokens exactly then; the text is empty, with no arguments, exactly when no field condition occurs at any depth |
| `WhereText.ReservedColumnUnread` | orm/table.go:987-993 | a column called `order` passes validation and its text is no condition to the server |
| `FilterKeys.OrderOperators` | orm/table.go:767-856 | for every engine, column, value and row: `{col: {k: v}}`, where k spells `lt`, `lte`, `gt` or `gte` in any case with blanks around it, is unknown when either side is NULL and otherwise holds exactly when the column is less, less or equal, greater, greater or equal |
| `FilterKeys.EqualityOperators` | orm/table.go:735-813 | `equals` and `is`: equality with a value, NULL test for null |
| `FilterKeys.NegationOperators` | orm/table.go:743-827 | `not` and `isNot`: inequality with a value, NOT NULL for null, and the opposite of the operators of a map |
| `FilterKeys.ListOperators` | orm/table.go:751-846 | `in` is true when some listed value equals the column, false when all are known to differ, unknown otherwise; `notIn` is the opposite |
| `FilterKeys.PresenceOperators` | orm/table.go:783-894 | `isSet` asks whether the column is not NULL, `isEmpty` compares it with the empty text |
| `FilterKeys.TextOperators` | orm/table.go:775-872 | on an engine with the standard's LIKE, `contains`, `startsWith` and `endsWith` with an operand free of wildcards hold exactly of p+s+q, s+q and p+s |
| `FilterKeys.TextOfNull` | orm/table.go:775-872 | a NULL column leaves the text operators unknown |
| `FilterKeys.PlainValues` | orm/table.go:699-717 | a value without operator keys, maps included, is an equality, or a NULL test for null |
| `FilterKeys.Connectives` | orm/table.go:616-688 | keys that spell AND, OR and NOT in any case: all of a list's conditions, one of them, the opposite of a condition; empty conditions do not take part, a single map stands for itself and null for none |
| `FilterKeys.EntriesTogether` | orm/table.go:604-648 | the entries of a filter hold together, each taken by itself |
| `FilterKeys.OperatorKeys` | orm/table.go:943-951 | a key is an operator exactly when it spells one of the 21 words in any case with blanks around it |
| `FilterKeys.ConnectiveKeys` | orm/table.go:618-630 | a key is AND, OR or NOT exactly when it spells it, and names a column otherwise |
| `FilterKeys.UnsupportedRefused` | orm/table.go:794-795 | `some`, `every`, `none`, `has`, `hasEvery` and `hasSome` are refused as unsupported, not as invalid |
| `FilterKeys.OperandsRefused` | orm/table.go:829-894 | membership wants a list with a value in it, the text operators a text, `isSet` and `isEmpty` a boolean; anything else is invalid input |
| `FilterKeys.StrangersRefused` | orm/table.go:796-797 | one operator in a map makes every other key an operator: an unknown word beside it is refused |
| `FilterKeys.ShapesRefused` | orm/table.go:680-908 | an invalid column, NOT of anything but a map, and AND or OR of anything but a map, a list or null are invalid input |
| `PrintedText.OrderText` | orm/table.go:848-856 | the exact characters and argument of a comparison: column, `<`, `<=`, `>` or `>=`, and the next placeholder of the dialect |
| `PrintedText.EqualityText` | orm/table.go:808-813 | the exact characters of an equality and of `IS NULL` |
| `PrintedText.InequalityText` | orm/table.go:815-827 | the exact characters of `<>` and of `IS NOT NULL` |
| `PrintedText.ListText` | orm/table.go:829-846 | the exact characters of `IN (...)` and `NOT IN (...)`, one placeholder per value in order |
| `PrintedText.PresenceText` | orm/table.go:874-894 | the exact characters of `isSet` and `isEmpty` |
| `PrintedText.LikeText` | orm/table.go:858-872 | the exact characters of LIKE and the pattern for each text operator |
| `PrintedText.PlainText` | orm/table.go:705-716 | the exact characters for a value without operators |
| `PrintedText.OperatorsText` | orm/table.go:719-827 | the operators of one column are joined by ` AND `, and `not` of a map goes out as `NOT (...)` |
| `PrintedText.EntriesText` | orm/table.go:644-647 | the entries of a filter are joined by ` AND ` |
| `PrintedText.ConnectedText` | orm/table.go:650-678 | a list under AND or OR is joined by that word inside one pair of parentheses |
| `PrintedText.NegatedText` | orm/table.go:680-689 | a negated condition goes out as `NOT (...)`, an empty one not at all |
| `WhereRefused.WhereFails` | orm/table.go:604-806 | a column that the server does not take for a name makes the whole filter no condition, through any nesting of AND, OR, NOT and operators |
| `WhereNames.WhereSpelled` | orm/table.go:604-648 | the names in the compiled tokens are exactly the columns of the tree, at any depth |
| `SqlText.TextReadsBackIff` | orm/table.go:604-872 | a printed text is split into the tokens that were printed exactly when the server takes each name in it for a name |
| `SqlText.PrintedJoin` | orm/table.go:647-677 | parts are joined by a connective with one blank on either side |
| `SqlText.PrintedGroup` | orm/table.go:677 | a group is printed in parentheses without blanks inside |
| `SqlText.PrintedNegation` | orm/table.go:688 | a negation is printed as NOT, a blank and a group |
| `WhereParse.CompiledTokensMeanTree` | orm/table.go:604-894 | the same on tokens, for columns of any name: bound and parsed, they have the tree's meaning; there are none, with no arguments and an unchanged counter, exactly when no field condition occurs at any depth |
| `WhereParse.WhereNumbered` | orm/table.go:604-648 | from any starting counter the placeholders are start+1, start+2, ... from left to right, one per argument, and the counter advances by the number of arguments |
| `WhereParse.WhereParses` | orm/table.go:604-648 | the bare AND-joined text reads back as the conjunction the tree denotes, whatever follows it |
| `WhereParse.ListParses` | orm/table.go:650-678 | an AND or OR list, its conditions joined without inner parentheses, reads back as one parenthesised group with the alternatives intact |
| `WhereParse.OperatorsParse` | orm/table.go:719-806 | the operators of one field, joined by bare AND, read back as their conjunction |
| `WhereMeaning.AbsentIffNoField` | orm/table.go:604-688 | a tree contributes no condition exactly when it holds no field condition at any depth |
| `WhereMeaning.AcceptsExactlyWellFormed` | orm/table.go:604-951 | the compiler succeeds exactly on well-formed trees: valid column names, condition lists made of maps, supported operators with operands of the right kind; success does not depend on the counter |
| `WhereMeaning.ChainMeans` | orm/table.go:604-717 | the expression a tree is compiled to has the meaning of the tree, absent parts included |
| `Where.BuildWhereMap` | orm/table.go:604-648 | the loop over the entries computes the compilation that the theorems are about, and stops at the first error |
| `Where.BuildLogicalListExpr` | orm/table.go:650-678 | the loop over a condition list, its skipped empty conditions and its parentheses |
| `Where.BuildNotExpr` | orm/table.go:680-689 | NOT of an empty condition is empty, otherwise a parenthesised negation |
| `Where.BuildConditionValue` | orm/table.go:691-697 | a condition must be a map |
| `Where.BuildFieldExpr` | orm/table.go:699-717 | an operator map, a null test or an equality on a valid column |
| `Where.BuildOperatorExpr` | orm/table.go:719-806 | the loop over the operators of a field, each with its operand checks and errors |
| `Where.BuildNotFieldExpr` | orm/table.go:815-827 | `not` with null, with nested operators and with a value |
| `Where.BuildInExpr` | orm/table.go:829-846 | membership lists, with the empty list rejected |
| `Where.AsConditionList` | orm/table.go:896-908 | AND and OR see nothing of their operand but this list: compiling its conditions in turn gives the operand's group, or its error, for either connective and any counter; it fails exactly for what is neither null, a map nor a list |
| `LikeText.TextOperatorsExact` | orm/table.go:858-872 | contains, startsWith and endsWith mean what they say on all texts exactly when the operand has no `%`, no `_` and, on an engine that takes the backslash as escape character unasked, no backslash |
| `LikeText.WildcardBreaksText` | orm/table.go:858-872 | for every operand with a wildcard, and no escaping, a text that the pattern matches although the operator does not hold of it |
| `LikeText.EscapeBreaksText` | orm/table.go:858-872 | for every operand with a backslash, where it escapes, a text that the pattern decides wrongly |
| `LikeText.BackslashBreaksText` | orm/table.go:858-872 | the operand `a\b` where the backslash escapes: `a\b` is missed and `ab` is matched |
| `Sql.BothDialectsBindAlike` | orm/table.go:463-468 | if a text numbers its placeholders from left to right, `$n` and `?` bind every placeholder to the same argument |
| `Statements.InsertQuery` | orm/table.go:323-346 | the INSERT text and arguments, or the first error |
| `Statements.UpdateQuery` | orm/table.go:360-395 | the UPDATE text with the WHERE counter starting after the SET values |
| `Statements.DeleteQuery` | orm/table.go:223-235 | the DELETE text, refused for an empty top-level filter |
| `Statements.SelectQuery` | orm/table.go:397-442 | the SELECT text with LIMIT and OFFSET numbered after the WHERE arguments |
| `Statements.BuildSelectColumns` | orm/table.go:501-518 | the column list: the first star wins, every column before it must be valid |
| `Statements.BuildNormalizedValues` | orm/table.go:962-985 | trimmed valid columns with their values, refused when there are none |
| `Statements.ColumnsMean` | orm/table.go:501-518 | a column list is all columns when empty or when its first entry that is no name is a star, refused when that entry is anything else, and otherwise the trimmed names in order |
| `Statements.ValuesMean` | orm/table.go:962-985 | a value list is accepted exactly when it is not empty and every key is a name, and then it is these names with their values in order |
| `Spelling.NamesAccepted` | orm/table.go:985-993 | a name is valid exactly when, blanks around it aside, it is letters, digits and underscores, at least one, and no digit first |
| `PrintedText.InsertText` | orm/table.go:323-346 | the exact words of an INSERT, with column list, placeholders and RETURNING |
| `PrintedText.UpdateText` | orm/table.go:360-395 | the exact words of an UPDATE, its assignments numbered from 1 and the condition from after them |
| `PrintedText.DeleteText` | orm/table.go:223-235 | the exact words of a DELETE |
| `PrintedText.SelectText` | orm/table.go:397-442 | the exact words of a SELECT, with ASC and DESC, LIMIT and OFFSET, and its arguments |
| `StatementParse.InsertReceived` | orm/table.go:323-346 | in every INSERT the k-th placeholder is number k and there are as many as arguments; under both dialects the server reads exactly the given columns, values and RETURNING list |
| `StatementParse.UpdateReceived` | orm/table.go:360-395 | the same for UPDATE: SET values, the tree's condition and RETURNING |
| `StatementParse.DeleteReceived` | orm/table.go:223-235 | the same for DELETE: the tree's condition |
| `StatementParse.SelectReceived` | orm/table.go:397-442 | the same for SELECT: columns, condition, order, LIMIT and OFFSET |
| `StatementText.TextReceivedIff` | orm/table.go:323-442 | the text of a statement is split into the tokens that were printed exactly when the server takes every table and column in it for a name, and then it is read as the statement that was meant |
| `StatementText.InsertTextReceived` | orm/table.go:323-346 | the characters of an INSERT with such names are read as its columns, values and RETURNING list |
| `StatementText.UpdateTextReceived` | orm/table.go:360-395 | the characters of an UPDATE with such names are read as its SET values, condition and RETURNING list |
| `StatementText.DeleteTextReceived` | orm/table.go:223-235 | the characters of a DELETE with such names are read as its condition |
| `StatementText.SelectTextReceived` | orm/table.go:397-442 | the characters of a SELECT with such names are read as its columns, condition, order and limits |
| `Table.UpdateRuns` | orm/table.go:348-395 | an accepted UPDATE patches exactly the rows of which the tree is true |
| `Table.DeleteRuns` | orm/table.go:223-241 | an accepted DELETE removes exactly the rows of which the tree is true |
| `Table.SelectRuns` | orm/table.go:105-116 | an accepted SELECT returns the matching rows, ordered, cut to the window and projected |
| `Table.FoundInOrder` | orm/table.go:105-116 | whole rows come back in the order asked for if the engine's comparison is an order, and without LIMIT and OFFSET they are the matching rows, each as often as it is in the table |
| `Table.AscendingOrDescending` | orm/table.go:414-429 | of two rows that come back one before the other, the first is not greater by the first key that tells them apart, or not less if that key is descending |
| `Table.FoundWindow` | orm/table.go:431-440 | without an order the matching rows come back in table order, from the offset on and at most as many as the limit; a value that is not positive sets neither |
| `Table.DialectsSpelled` | orm/table.go:458-468 | placeholders are numbered exactly for `postgres` and `pg` in any case without blanks; RETURNING is used exactly for these, `sqlite` and `sqlite3`, blanks around them or not |
| `Table.StarSpelled` | orm/table.go:953-960 | a star counts as one with blanks around it |
| `Table.UnconditionalDelete` | orm/table.go:223-241 | an accepted Delete goes out without a condition exactly when the tree has no field condition at any depth; then it empties the table |
| `Table.UnconditionalUpdate` | orm/table.go:360-395 | an accepted Update goes out without a condition exactly when the tree has no field condition at any depth; then it patches every row |
| `Table.GuardIsShallow` | orm/table.go:224-365 | a filter that passes the guards of Delete and Update and constrains nothing |
| `Table.ApplyPatch` | orm/table.go:561-574 | every record with every patch entry applied, others kept |
| `Table.ProjectRecords` | orm/table.go:540-559 | records restricted to the valid columns they have; unchanged for no columns or a star; an error only for an invalid column |
| `Repository.Repo.FindMany` | orm/table.go:105-116 | the matching rows of the table, in the order asked for; the table stays as it was |
| `Repository.Repo.FindUnique` | orm/table.go:145-165 | the only match, none, or the ambiguity error exactly for two or more |
| `Repository.Repo.FindUniqueOrThrow` | orm/table.go:168-177 | the only match, with not-found for none |
| `Repository.Repo.Create` | orm/table.go:48-51 | one row appended, or nothing changed; an error changes nothing unless only the answer was lost |
| `Repository.Repo.Update` | orm/table.go:348-358 | exactly the matching rows patched and counted; an error changes nothing unless only the answer was lost |
| `Repository.Repo.Delete` | orm/table.go:223-241 | exactly the matching rows removed and counted; an error changes nothing unless only the answer was lost |
| `Repository.Repo.Upsert` | orm/table.go:249-270 | success leaves exactly one matching row, returns it and changes no other row; if nothing matched, the one row appended has exactly the columns of create and where, with create's values first; two or more matches are an error and change nothing; for column equalities, consistent create values and an update of other columns, only the database or ambiguity can fail it |
| `Repository.MergedRow` | orm/table.go:576-585 | the row inserted from create and where has exactly the columns they name, holds each create value under its key, and each filter value under a key that create lacks |
| `Repository.Repo.UpdateManyAndReturn` | orm/table.go:190-220 | both paths patch the same rows, and an error changes nothing unless only the answer to the UPDATE was lost; with explicit star-free columns and trimmed keys the fallback returns the records RETURNING would; for no columns or a star it returns the rows cut to the columns named in filter and patch, and never succeeds if the filter has an AND, OR or NOT key |
| `Repository.FallbackExact` | orm/table.go:195-207 | for one row the fallback's record equals the RETURNING record exactly when every patched and requested column has a trimmed key or already held the new value |
| `Repository.UntrimmedKeyKeepsOldValue` | orm/table.go:561-574 | the patch key `" a "` with a changed value: the record keeps the old value |
| `Repository.StarFallbackExact` | orm/table.go:195-207 | for no columns or a star and trimmed keys the fallback returns the updated row exactly when the row's columns together with the patch keys are the filter and patch keys |
| `Repository.StarFallbackDropsColumns` | orm/table.go:587-602 | a row with a column named in neither filter nor patch loses it |
| `Repository.LogicalHintUnread` | orm/table.go:587-602 | with an AND, OR or NOT key in the filter the fallback's SELECT lists that word as a column, and its text is not read as printed |
| `UpsertRaces.MatchingCounted` | orm/table.go:249-270 | in every run of any number of Upserts on one filter, with errors and lost answers anywhere, the rows that match are those that matched at the start and one for each call that inserted |
| `UpsertRaces.NewRowMerges` | orm/table.go:258 | in every run, what a call inserts is its create values and the filter's put together, create first |
| `UpsertRaces.InsertersLookedFirst` | orm/table.go:253-262 | whoever inserts looked at a table without a match, before anybody had inserted |
| `UpsertRaces.DuplicateExactlyWhenRaced` | orm/table.go:249-270 | from a table with at most one match, more than one row matches exactly when two calls inserted, both of which looked before anybody had inserted; with a match at the start nobody inserts |
| `UpsertRaces.LastLookup` | orm/table.go:262-269 | the last lookup of a call is ambiguous exactly when two calls have inserted by then, and otherwise finds the one matching row |
| `UpsertRaces.UpdatesAfterOneMatch` | orm/table.go:253-266 | a call updates only after it looked at exactly one match, and only if it has something to change |
| `UpsertRaces.AmbiguousEnds` | orm/table.go:253-256 | a call whose first lookup is ambiguous ends with that error and writes nothing |
| `UpsertRaces.TwoUpsertsDuplicate` | orm/table.go:253-269 | a reachable run of two calls that ends with two matching rows and the ambiguity error for both |
| `Repository.InsertedHits` | orm/table.go:576-585 | after inserting create values merged with the filter's equalities, exactly one more row matches |
| `Repository.UpdatedHits` | orm/table.go:264-268 | an update of other columns keeps the number of matching rows |
| `DistributedQueue.StepKeepsInv` | jobs/distributed.go:50-159 | every single step of any worker, crash or lost write keeps the whole invariant |
| `QueueRuns.QueueIsSafe` | jobs/distributed.go:50-159 | after every run: at most one worker holds a job, every enqueued job is in the table or was deleted after exactly one success, `attempts` is the number of successful claims in the run, and what a handler receives is what was enqueued |
| `QueueRuns.SucceedsAtMostOnce` | jobs/distributed.go:62-83 | no two handler successes in a run are about the same job |
| `QueueRuns.LeavesOnlyByAck` | jobs/distributed.go:148-152 | a row disappears only by the acknowledgement of a worker whose handler succeeded on it |
| `QueueRuns.ClaimsAreCounted` | jobs/distributed.go:132-140 | the recorded number of claims of a job is the number of successful compare-and-set steps in the run |
| `QueueRuns.OrphanedForever` | jobs/distributed.go:113-159 | a processing row without a live holder stays so in every later state |
| `QueueRuns.ClaimRespectsDelay` | jobs/distributed.go:76-159 | with a clock that never goes back and no requeue between SELECT and claim, a failed job is claimed no earlier than the moment its handler failed plus the retry delay |
| `QueueRuns.EarlyExactlyAfterRequeue` | jobs/distributed.go:117-159 | with such a clock a claim comes too early exactly when, between its SELECT and itself, the job was last requeued for a failure less than the retry delay ago |
| `QueueRuns.StaleSelectClaimsEarly` | jobs/distributed.go:132-140 | a reachable run in which a stale SELECT claims a job before its retry delay has passed |
| `QueueOrder.DueExactly` | jobs/distributed.go:50-159 | in every state of every run a row is due from its creation on or, once put back, from exactly the retry delay after the last reading of the clock with which a worker put it back |
| `QueueOrder.RowsTellTheTruth` | jobs/distributed.go:56-140 | in every state of every run a row that was never claimed is as it was inserted, and whoever holds a job is the worker its row names |
| `QueueOrder.PicksOldest` | jobs/distributed.go:117-130 | in every run a worker picks a queued row that is due, the oldest of those, and never passes over an older row that nobody has claimed yet for another such row |
| `QueueOrder.FindsDueRow` | jobs/distributed.go:117-130 | a worker that looks can pick a row exactly when one is queued and due at its reading of the clock |
| `QueueOrder.ClaimStamps` | jobs/distributed.go:117-140 | in every run a successful claim stamps the row with the worker, the clock when it last began to look, and one more attempt |
| `QueueOrder.HandlesAnswered` | jobs/distributed.go:72-146 | in every run a handler starts only on a claim that took effect and was answered |
| `QueueOrder.AckRemoves` | jobs/distributed.go:148-152 | an acknowledgement that takes effect removes the row for good |
| `QueueOrder.PutBackRequeues` | jobs/distributed.go:154-159 | a row that is put back is queued again, keeps its attempts, and nobody holds it |
| `QueueOrder.CrashedStops` | jobs/distributed.go:62-83 | a worker that has crashed takes no further step |
| `Base64.RoundTrip` | jobs/distributed.go:58-141 | unpadded base64 (sections 3.2 and 4 of RFC 4648) decodes every encoded payload to itself |
| `Base64.EncodesBits` | jobs/distributed.go:58 | three bytes go out as the four digits to base 64 of the number they are to base 256; two or one byte at the end likewise after two or four zero bits |
| `Base64.Alphabet` | jobs/distributed.go:58 | the letters are those of table 1 of RFC 4648 |
| `Routes.ParseSegments` | route.go:28-43 | the loop over the parts gives each its kind; `:` and `*` alone are literals |
| `Routes.SplitPathJoins` | route.go:20-26 | the parts joined with slashes are the path without outer slashes |
| `RouteMeaning.NamesAreKept` | router.go:57-68 | however many registrations follow, a place keeps the name its first registration gave it |
| `Router.Index.Add` | router.go:40-75 | one more registration is on record, cut at a wildcard that is not last, and the node graph stays an exact image of the record; it panics exactly for such a wildcard |
| `Router.Index.WalkDown` | router.go:48-73 | the loop creates just the missing nodes and stops after the first inner wildcard |
| `Router.Index.Find` | router.go:77-115 | lookup in the node graph returns exactly what the greedy walk over the registration list returns: entry, captured values and names |
| `RouteMeaning.WildcardsHaveNoChildren` | router.go:63-71 | whatever was registered, panicking calls included, no place lies below a wildcard |
| `RouteMeaning.HitsAreSound` | router.go:77-115 | a hit comes from a registration of that method whose pattern matches; the captured values put into the pattern give the path without outer slashes |
| `RouteMeaning.HitsExactlyUnshadowed` | router.go:92-114 | a lookup hits exactly when some registered pattern matches and no edge tried earlier is present at any of its parts |
| `RouteMeaning.UnmixedFindsEveryMatch` | router.go:92-114 | if no place has children of two kinds, a lookup hits exactly when some registered pattern matches |
| `RouteMeaning.AddingShadows` | router.go:92-109 | for all literal names: registering `/a/b` makes lookup of `/a/c` miss, although it hit the earlier `/:x/c`, which still matches |
| `RoutePaths.WildcardTakesRest` | route.go:28-43 | for all texts: a last part `*x` below `/a` is found on every path that goes on after `/a/` with more than slashes and captures under `x` exactly what follows, without slashes at its end; it is not found on `/a` |
| `RoutePaths.ParamTakesPart` | route.go:28-43 | a last part `:x` below `/a` is found on every path of one more part, captures it under `x` without the colon, and is not found on longer or shorter paths |
| `RoutePaths.LiteralTakesItself` | route.go:28-43 | a literal last part is found on itself only; a colon or a star alone is such a literal |
| `RoutePaths.LiteralBeforeParam` | router.go:92-102 | whichever was registered first, a literal wins over a parameter and any other part goes to the parameter |
| `RoutePaths.LiteralBeforeWildcard` | router.go:92-109 | whichever was registered first, a literal wins over a wildcard and any other part goes to the wildcard |
| `RoutePaths.ParamBeforeWildcard` | router.go:98-109 | whichever was registered first, a parameter wins over a wildcard |
| `RoutePaths.ParamHidesWildcard` | router.go:98-109 | it does so even on a path that is too long for it, which is then not found |
| `RoutePaths.LaterAnswers` | router.go:57-75 | of two registrations at one place the later one answers, under the parameter name of the earlier one |
| `RoutePaths.OtherMethodMisses` | router.go:77-84 | a registration is found under its own method only |
| `Groups.Chain` | app.go:197-202 | the loop nests the middleware with the first outermost |
| `Groups.MiddlewareOrder` | group.go:12-26 | a handler in nested groups runs inside the application's middleware, then each group's from the outermost in, then its own |
| `Groups.ChainTrace` | app.go:197-202 | middleware that leave marks, chained around a handler, leave all their marks once, the first one's first |
| `Groups.NestedTrace` | group.go:12-26 | a request to a route in nested groups meets the application's middleware, then each group's from the outermost in, then the route's own, then the handler: all of them, each once |
| `Groups.GroupPathSegments` | group.go:20-26 | a route is registered under the prefix's segments followed by the path's exactly when a single slash meets between them or one of them is only slashes |
| `Groups.NestedPathSegments` | group.go:12-26 | a route of nested groups is registered under the segments of every level's prefix followed by the path's exactly when every level and the path join cleanly |
| `Groups.DoubledSlashSplits` | group.go:20-26 | `/x` in the group `/api//` is not registered under `api` and `x` |
| `Groups.NormalKeepsCore` | app.go:184-195 | normalising keeps what trimming slashes leaves, and starts with a slash |
| `MigrationEngine.Engine.Up` | migrate/migrate.go:49-76 | exactly the `count` smallest pending migrations were applied, each as a whole, and one more exactly when a commit took effect and its answer was lost; success means the target was reached, an error names the next one and why; the caller's slice ends sorted |
| `MigrationEngine.Engine.Down` | migrate/migrate.go:78-105 | the same for the largest applied migrations |
| `MigrationEngine.Engine.ApplyOne` | migrate/migrate.go:124-142 | script and version row together or not at all; an error leaves both undone unless the commit took effect and its answer was lost; a version already there fails |
| `MigrationEngine.Engine.RollbackOne` | migrate/migrate.go:144-159 | script and removal of the version row together or not at all, with the same exception |
| `MigrationEngine.Engine.ReportStatus` | migrate/migrate.go:107-122 | every migration in ascending order, marked exactly when its version is in the table |
| `Migrations.SameOrder` | migrate/migrate.go:58-87 | however earlier calls left the slice ordered, a call visits distinct versions in the same order |
| `Migrations.MovesMean` | migrate/migrate.go:124-159 | moving up runs the up scripts in order and records each version under its name; moving down runs the down scripts in order and takes the versions out |
| `MigrationRuns.CallKeepsPrefix` | migrate/migrate.go:49-105 | from a prefix every call, failed or not, leads to the prefix `count` further or back, one more exactly when the answer to a commit was lost |
| `MigrationRuns.RunsKeepPrefix` | migrate/migrate.go:49-159 | in every run from an empty version table, lost answers to commits included, the applied versions are a prefix of the sorted list, and if every down script undoes its up script the schema is the replay of that prefix |
| `MigrationRuns.UpsCompose` | migrate/migrate.go:49-76 | for positive a and b, Up(a) then Up(b) is Up(a+b), from any version table |
| `MigrationRuns.DownUndoesUp` | migrate/migrate.go:78-105 | Down with the positive count Up returned, even from a failed Up, gives back table and schema exactly when no answer to a commit of that Up was lost |
| `MigrationRuns.DownZeroClears` | migrate/migrate.go:93-95 | Down with a count of zero rolls back everything, so it restores the state exactly when nothing was applied |
| `MigrationNames.NormalizeName` | migrate/generate.go:400-423 | the loop computes a name of lower-case letters and digits in runs joined by single underscores, never empty |
| `MigrationNames.NormalIffFixed` | migrate/generate.go:400-423 | the normal names are exactly the fixed points of normalising, which is therefore idempotent |
| `NameWords.NormalizedWords` | migrate/generate.go:400-423 | a normalised name is the runs of letters and digits of the lower-case name joined by single underscores, or `autogen` if it has none |
| `MigrationNames.FileNameRoundTrip` | migrate/migrate.go:193-226 | parsing a printed file name gives back version, name and direction under every dialect |
| `MigrationNames.SpecificParses` | migrate/migrate.go:209-213 | a name with a dialect is read under that dialect or when none is given |
| `MigrationSpelling.ReadsExactlyWritten` | migrate/migrate.go:193-226 | a file name is read as a version, a name and a direction exactly when it is an optional sign, digits of that value within 64 bits, an underscore, the name, perhaps the dialect asked for, and `.up.sql` or `.down.sql` |
| `MigrationSpelling.WrittenIsRead` | migrate/migrate.go:193-226 | every name so written is read as its version, name and direction by each dialect it is for, and by no other |
| `MigrationSpelling.ZerosInFront` | migrate/loader.go:12-14 | a zero in front of the number changes nothing |
| `MigrationSpelling.DocumentedName` | migrate/loader.go:12 | `0001_init.up.sql` is version 1, `init`, up, under every dialect |
| `MigrationSpelling.DirectoryIgnored` | migrate/migrate.go:194 | the directory in front of a file name does not matter |
| `MigrationSpelling.PrintedWithoutZeros` | migrate/generate.go:89-90 | a printed version is its decimal digits without a zero in front |
| `MigrationFiles.BuildScripts` | migrate/generate.go:60-74 | one line per table, dropped in the reverse order of creation |
| `MigrationScripts.UpText` | migrate/generate.go:60-73 | the up text is the CREATE statements in order, each with a semicolon and a line break |
| `MigrationScripts.DownDropsAll` | migrate/generate.go:69-74 | cut at its line breaks and run after the up script, the down text drops the tables one by one, the last one created first: after n lines the first |es| - n are left, at the end none, and other tables stay |
| `MigrationFiles.Directory.Generate` | migrate/generate.go:76-116 | success adds exactly the two files of a name that was free, overwriting nothing; failure leaves the directory as it was or, if the clean-up fails too, with the up file |
| `MigrationFiles.GeneratedNameIsPlain` | migrate/generate.go:82-92 | every generated name is non-empty and free of dots and slashes, so its file names parse back |
| `MigrationFiles.GroupedMeans` | migrate/loader.go:20-44 | each version has the name of its first file and, in each direction, the text of its last |
| `MigrationFiles.Load` | migrate/loader.go:15-60 | the list is strictly ascending and holds exactly the grouped migrations; a missing up text is reported for the smallest such version |
| `MigrationFiles.GeneratedPairLoads` | migrate/loader.go:20-44 | a generated pair, in a directory without other files of its version, is grouped under every dialect as one migration with the same version, name, up and down text |
| `MigrationFiles.GeneratedIsLoaded` | migrate/generate.go:73-116 | the pair that Generate leaves in a directory without files of that version is, under every dialect, the one migration of its version in the list that Load returns, and never the one it misses an up text for |
| `MigrationFiles.SpecificWinsIff` | migrate/loader.go:39-43 | in either direction a dialect's own text is loaded exactly when its file name sorts after the generic one, which another first letter than `u` or `d` decides |
| `MigrationFiles.GenericUpSpecificDown` | migrate/loader.go:39-43 | for a dialect whose first letter lies strictly between `d` and `u`, a version with all four files is loaded with the generic up text and the dialect's own down text |
| `Schemas.ResultIgnoresComponents` | openapi/schema.go:11-71 | two builds of a type that end give the same schema, whatever the component maps hold |
| `SchemaShapes.JsonNames` | openapi/schema.go:73-93 | a field goes by the first entry of its json tag, or its own name where that is empty, and may be absent exactly when `omitempty` is a later entry |
| `SchemaShapes.ShownFields` | openapi/schema.go:38-46 | a field is left out exactly when it is not exported or its json tag is `-` |
| `SchemaShapes.StructHolds` | openapi/schema.go:34-67 | the schema of a struct has a property for exactly the names of its shown fields and requires, in order, those whose field may not be absent |
| `SchemaShapes.PropertyHolds` | openapi/schema.go:44-60 | a property is a reference to the name of the field's struct, behind any pointers, if it has one other than the owner's, and the schema of the field's type otherwise; the last field of a name decides |
| `SchemaShapes.PlainSchemas` | openapi/schema.go:11-33 | the schemas of booleans, numbers, texts, times, pointers, lists and maps |
| `Schemas.BuildResolves` | openapi/schema.go:11-71 | a build keeps the component map closed, changes no component, and makes every reference it returns for a component that is there |
| `Schemas.BuildFaithful` | openapi/schema.go:50-57 | if no two types that a model leads to share a name, a build adds under each name the schema of the type that has it |
| `JsonPointer.RefResolvesIff` | openapi/schema.go:54 | the text `#/components/schemas/` and a name, read as a JSON pointer in a URI fragment, leads to that name exactly when it holds no `/`, `~` or `%` |
| `JsonPointer.PointsIffSimple` | openapi/schema.go:50-57 | the references of a schema all lead to the components they were made for exactly when none of their names holds `/`, `~` or `%` |
| `Schemas.RankedBuilds` | openapi/schema.go:11-71 | a type that leads into no circle of types has a schema, whatever the components hold and whatever other types there are |
| `Schemas.EndsExactlyWhenUnwinding` | openapi/schema.go:11-71 | if no two structs that the type leads to share a name, a build ends exactly when every chain of types from it ends, where chains stop at structs that have a component when it starts |
| `Schemas.SharedNameEndsEarly` | openapi/schema.go:50-54 | with a shared name a build can end although a chain does not, because the first struct hides the second |
| `Schemas.SelfReferenceNeverEnds` | openapi/schema.go:50-57 | a struct that holds itself, directly or behind a pointer, never gets a schema, whatever the components hold |
| `OpenApi.Generator.BuildSchema` | openapi/schema.go:11-71 | the recursive builder on the shared map ends and agrees with the specification, components included |
| `OpenApi.Generator.BuildStruct` | openapi/schema.go:34-67 | the loop over the fields: skipped, inlined, referred to a known component or to a new one |
| `OpenApi.Generator.RegisterSchema` | openapi/openapi.go:67-75 | the component map stays closed and only grows; components stay the schemas of the types they are named after if the name is the model's own |
| `OpenApi.Generator.EnsureSchema` | openapi/openapi.go:225-237 | a named model has a component afterwards; the map stays closed and only grows, and components stay the schemas of the types they are named after |
| `OpenApi.Generator.BuildDocument` | openapi/openapi.go:100-181 | the document holds the model references of the last route of each template and method; every reference in it and in any component was made for a component that is there, which is the schema of the model if type names are unique and models were registered under their own names; those of earlier documents still are; as text (section 4.7.23 of OpenAPI 3.0.3) all of them resolve exactly when none of the names holds `/`, `~` or `%` |
| `OpenApiPaths.TemplateTexts` | openapi/openapi.go:243-258 | part by part a path template is the path with `:x` and `*x` written `{x}`; no path is written `/` |
| `OpenApiPaths.OperationKeys` | openapi/openapi.go:239-241 | operations are told apart by method, whatever its case, and path |
| `OpenApiPaths.DocumentHolds` | openapi/openapi.go:100-181 | the entry of the last route of a template and method refers to the request and the response model given for that method and path, each by the name of its type behind any pointers, and to none where there is no model |
| `OpenApi.GenericModelUnresolved` | openapi/openapi.go:137-142 | the reference to a model called `Page[github.com/x/y.User]` resolves in no document |
| `OpenApi.ForeignNameMisleads` | openapi/openapi.go:67-75 | an order registered under the name `User`: the component that references to users lead to is not the schema of a user |
| `InMemoryQueue.AcceptedIsDeliveredThenBuffered` | jobs/queue.go:34-78 | in every state of every run accepted messages are the delivered ones followed by the buffered ones, within capacity |
| `InMemoryQueue.MessagesUnchanged` | jobs/queue.go:41-68 | in every run the accepted messages are those the sending calls came with, in the order of their sends, and the delivered ones are those the workers have in hand after their receives, in that order |
| `InMemoryQueue.NothingAcceptedAfterClose` | jobs/queue.go:41-78 | once closed the queue stays closed, accepts nothing and only drains |
| `InMemoryQueue.ClosureMeansAllDelivered` | jobs/queue.go:56-68 | from the moment a worker sees the closure every accepted message has been delivered |
| `InMemoryQueue.PanicExactlyAcrossClose` | jobs/queue.go:41-54 | a call that sends passed its check first, and meets a closed channel exactly when Close fell between that check and the send |
| `InMemoryQueue.CloseDecidesTheCall` | jobs/queue.go:41-54 | if Close falls between a call's check and its next step, that step is a send on the closed channel or giving up |
| `InMemoryQueue.CloseCanOvertakeSend` | jobs/queue.go:41-54 | such a run exists |
| `InMemoryQueue.RefusedAfterClose` | jobs/queue.go:42-47 | a call that starts after Close is refused |
| `OrmCache.CacheIsCurrent` | app_db.go:9-54 | the cached client is always one for the current adapter and dialect |
| `OrmCache.SettersLast` | app_db.go:9-22 | what is current is the adapter and the dialect last set, whatever calls came in between |
| `OrmCache.CallSeesOneInstant` | app_db.go:32-54 | each ORM call returns what an uncached build gives at some instant between its first step and its return |
| `OrmCache.CallsShareTheClient` | app_db.go:38-53 | two calls that return with no setter in between hand out the same object |

## Left out

- Repository.Repo.Upsert: no other writer changes the table between its statements, which the code does not put in a transaction; `UpsertRaces` has any number of other Upserts on the same filter, but no other writers.
- Repository.Repo.UpdateManyAndReturn: no other writer changes the table between the SELECT and the UPDATE of the fallback.
- Database.Server.Execute: a statement with a reserved word for a table or column is refused; a real engine may instead read it as something else, such as `null = $1` or `current_user = $1`.
- SqlText.KeywordOf: every keyword the builders print is kept from being a name; some engines take OFFSET, BY, ASC or DESC for columns.
- LikeText.LikeMatch: a pattern that ends in an escape character matches nothing, as where it is an error; MySQL takes that character as itself.
- Database.Arrange: how the engine carries out ORDER BY is an assumption; rows that no key tells apart keep the table's order, where an engine may order them otherwise.
- SqlText.FirstToken: comments, quoted names and string literals other than the empty one are not split, because none is ever printed.
- JsonPointer.ComponentOf: characters other than `%` that a strict reader refuses in a URI fragment, such as brackets, are taken as they are.
- MigrationEngine.Engine.Up: no second engine works on the same version table at the same time.
- MigrationEngine.Engine.ApplyOne: engines whose DDL is not transactional.
- InMemoryQueue.AcceptedIsDeliveredThenBuffered: a value handed directly to a waiting receiver is modelled as a send followed by a receive.
- Migrations.SameOrder: with equal versions in one list the library's sort may order them either way; the model keeps the one order insertion gives, and the order theorems ask for distinct versions.
- MigrationFiles.Directory.Generate: partly written files; the clock, the random token and the tables with their CREATE statements are parameters.
- Schemas.EndsExactlyWhenUnwinding: asks that no two structs that the type leads to share a name; `Schemas.SharedNameEndsEarly` shows that it fails otherwise, and `Schemas.UnwindingBuilds` is the half that stays.
- OpenApi.Generator.BuildSchema: asks that its model leads into no circle of types; `Schemas.EndsExactlyWhenUnwinding` says what happens otherwise.
- OpenApi.Generator.BuildDocument: summaries, parameters, security and examples of an entry; the tags of a field are carried along as opaque notes.
- ORM: CreateMany and CreateManyAndReturn with their transactions, FindFirst, scanning of driver values, the schema reflection of orm/schema.go.
- Strings: case and white space beyond Latin-1, and file names ordered by code point where Go orders bytes.
- Values: type coercion, collation and floating point of a real SQL engine; a Go value becomes null, a number, a string, a boolean, a list or a map.
- Cyclic filter maps and the reflection in `asWhereMap` and `toAnySlice`: filters are finite trees.
- QueueOrder.RowsTellTheTruth: a row names the worker; in the code it names the node, which several workers may share.
- DistributedQueue: creation of its table, poll timing and the random job ids, which are taken to be fresh; all workers read one clock.
- Table creation in the migration engine, and the placeholder text of its two statements.
- HTTP serving, contexts, plugins, authentication, Redis and Kafka adapters, cron, configuration and the command line: input and output or thin wrappers, which would add only easy members.
