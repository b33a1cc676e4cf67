# Verified model of the Spanner ADBC driver

The driver answers ADBC calls with Spanner RPCs. Between the two sit a handful of pieces whose
correctness is not obvious from their code, and which this project models and proves:

- **The manual-transaction protocol.** Any number of statements buffer work into one lock-protected
  state while the connection commits it, rolls it back or leaves manual mode. A commit applies a clone of
  the buffer outside the lock and then drains the applied prefix. `TxnState.dfy` has the object and its
  locked sections, `TxnProtocol.dfy` every interleaving of them.
- **Cancellation and prefetch.** `CancelSignal.dfy` has the slot of per-operation signals and the
  check-register-check wait; `Prefetch.dfy` has the background task, the one-place channel, the reader and
  the cancel latch as one state machine.
- **The GoogleSQL lexer and what is built on it.** `Lexer.dfy` says what the next lexeme is and when two
  texts join without their lexemes changing; `Extents.dfy` says where lexemes end without the scanners;
  `LexerLoop.dfy` is the cursor object that produces them.
  Splitting (`Trimming.dfy`, `Splitting.dfy`, `Joining.dfy`), classification, comment erasure, parameters
  and generated DDL (`Ddl.dfy`, `IngestTypes.dfy`) follow.
- **The LIKE matcher** with its single backtrack point (`LikeMatcher.dfy`).
- **Value codecs.** Exact NUMERIC, DATE and TIMESTAMP texts over digit strings and a proleptic Gregorian
  calendar defined here (`Digits.dfy`, `Numerics.dfy`, `Calendar.dfy`, `Timestamps.dfy`).
- **Columns from rows** (`Columnar.dfy`), **streams of bound queries** (`BoundStream.dfy`) and the
  **`get_objects` hierarchy** (`Objects.dfy`, `ObjectsBatch.dfy`).

Runs of the two protocols are sequences of events. An RPC is an event with a nondeterministic outcome; a
clock never appears. Texts are sequences of characters. The parsers that the driver writes over bytes accept
ASCII only, so they accept and refuse the same texts here.

Three statements that the code's comments suggest do not hold as said, and a fourth rests on a query; each is
settled by an input and the exact condition:

- After a chunk that fails to convert, the reader keeps its channel and goes on with the next chunk. Delivered
  rows are a prefix of the stream's rows if no batch follows such a chunk, and, where rows are pairwise
  different, only then (`Prefetch.SkippedChunkRun`, `Prefetch.DeliveredPrefixExactly`).
- `numeric_string` and `parse_numeric_i128` invert each other at scale nine for all of `i128` but its least
  value (`Numerics.RoundTripScaleNine`).
- A created table reads back as the schema that built it exactly for fields of the read path's own shape:
  nullable, without foreign metadata, timestamps in UTC at the connection's precision, and no narrower,
  dictionary or view types (`IngestTypes.WidenedOnReadBack`, `IngestTypes.ReadsBackExactly`).
- Foreign-key usages come "in the same order as its own key columns" because the KEY_COLUMN_USAGE query orders
  its rows by ordinal: the function sorts usages by ordinal and leaves the key columns in batch order, so on
  other batches the two can differ (`Objects.OutOfOrder`, `Objects.AlignedExactlyInOrder`).

`parse_date_days` and `scan_timestamp_utc` also accept the year 0000, which Spanner does not store; the
lemmas give the ranges with and without it.

## Model

| member | source | states |
|---|---|---|
| `Transactions.TxnState.CheckKindAllowed` | src/connection/txn.rs:133-151 | in manual mode an operation is allowed exactly when nothing is open or the open transaction is of its kind |
| `Transactions.TxnState.StartReadTxn` | src/connection/txn.rs:170-182 | a query gets the transaction that is already open, never the one it built meanwhile; refused exactly when DML is buffered |
| `Transactions.TxnState.BufferDml` | src/connection/txn.rs:186-201 | accepted statements go behind all earlier ones, mutations are untouched, a refusal changes nothing, and no DML state is ever empty |
| `Transactions.TxnState.BufferMutation` | src/connection/txn.rs:205-217 | the same for a mutation |
| `Transactions.TxnState.BufferMutations` | src/statement/ingest.rs:267-276 | an ingest's loop buffers all of its mutations in order or none |
| `Transactions.TxnState.EnterAutocommit` | src/connection/txn.rs:227-230 | the mode flip and the take are one step: nothing stays behind in the shared state |
| `Transactions.TxnState.RestoreManual` | src/connection/txn.rs:237-241 | manual mode is back with exactly the given work |
| `Transactions.TxnState.FinishCommit` | src/connection/txn.rs:248-266 | the old buffer is the applied prefix followed by what is left; an emptied or read transaction is reset |
| `Transactions.TxnState.Rollback` | src/connection.rs:520-531 | discards whatever is open, and is refused in autocommit mode |
| `Transactions.TxnState.SetAutocommit` | src/connection.rs:204-221 | switching on takes the open transaction to be committed; any other switch only sets the mode |
| `TxnProtocol.InvOverRuns` | src/connection.rs:495-531 | in every reachable state a commit's clone is a prefix of the live buffer, and a transaction taken by the autocommit switch is the only one open |
| `TxnProtocol.DrainNeverOutOfRange` | src/connection/txn.rs:248-266 | in every interleaving the drain of `finish_commit` stays inside both buffers |
| `TxnProtocol.Conservation` | src/connection.rs:495-531 | since the last rollback, accepted statements are those applied by successful commits followed by those still owed, in order, none lost and none twice; the same for mutations |
| `TxnProtocol.NothingLostWithoutApply` | src/connection/txn.rs:186-266 | over any stretch without a successful apply or a rollback, the owed work gains exactly what was accepted, at its back |
| `TxnProtocol.CommitTakesEverything` | src/connection.rs:495-518 | a successful commit applies exactly the statements and mutations accepted before it began, and leaves open only what statements added while it ran |
| `TxnProtocol.AppliesWhatWasTaken` | src/connection.rs:204-227 | a successful apply, of a commit or of the switch to autocommit, applies all that was open when the call took it |
| `TxnProtocol.ReadOnlyAppliesNothing` | src/connection/txn.rs:284-293 | on a read-only connection no apply writes anything |
| `TxnProtocol.CallsAndModes` | src/connection.rs:204-231 | calls refused in autocommit mode change nothing, a rollback leaves nothing open, and the two switches set their mode |
| `TxnProtocol.StatementCalls` | src/statement.rs:365-374 | in manual mode work goes behind what is buffered unless queries hold the transaction, and a query fixes it to reads unless work is buffered |
| `TxnProtocol.CallsReturn` | src/connection.rs:495-531 | from every reachable state the connection's call can return within two steps of its own |
| `TxnProtocol.FailedCommitKeepsBuffer` | src/connection.rs:495-518 | a commit that fails or is refused as read-only leaves the buffer it began with plus concurrent appends |
| `TxnProtocol.FailedToggleRestores` | src/connection.rs:204-227 | a failed switch to autocommit puts back exactly the state it took, whatever statements did meanwhile |
| `TxnProtocol.OneKindOneSnapshot` | src/statement.rs:1010-1053 | between two resets no run both accepts work and hands out a read transaction; all queries get the same handle despite the unlocked build window, and it is new to the epoch; autocommit means nothing is open |
| `CancelSlots.CancelSlot.Begin` | src/runtime.rs:117-121 | mints a new current signal and changes no earlier one |
| `CancelSlots.CancelSlot.Signal` | src/runtime.rs:130-132 | latches the current signal and no other |
| `CancelSlots.LatchedExactly` | src/runtime.rs:109-133 | over any history a signal is latched exactly when a cancel happened while it was current |
| `CancelSlots.EarlierSignalsFixed` | src/runtime.rs:109-133 | no later event unlatches a signal or touches an earlier operation's signal |
| `CancelWait.NoLostWakeUp` | src/runtime.rs:68-94 | once any `signal()` has returned, every waiter has returned, has been notified, or is about to read the set flag |
| `CancelWait.ReturnedMeansSignalled` | src/runtime.rs:68-94 | a wait returns only after the flag is set, and only a `signal()` sets it |
| `CancelWait.WaiterReturns` | src/runtime.rs:78-94 | from then on two steps of its own bring any waiter to its return, whatever the others do |
| `Prefetch.InvOverRuns` | src/runtime.rs:246-284 | in every interleaving the chunks in flight are the next ones in source order, at most one buffered and one in hand |
| `Prefetch.PrefixAndBound` | src/conversion.rs:373-403 | rows handed over are a prefix of the stream's rows, and at most two pulled chunks are undelivered |
| `Prefetch.EndMeansComplete` | src/conversion.rs:373-403 | an error-free end with the signal unlatched means that every row was delivered |
| `Prefetch.LatchEndsStream` | src/conversion.rs:373-403 | with the signal latched between two calls, the next call fails and all later ones end, even with a chunk already buffered |
| `Prefetch.EndOnlyWhenDrained` | src/conversion.rs:387-392 | a reader that holds its channel ends the stream only when the fetch task has finished and the channel is empty |
| `Prefetch.CallReturns` | src/runtime.rs:186-206 | a call cancelled while it checks or waits, or handed an error, returns exactly one failure and drops the channel; one handed rows returns just those |
| `Prefetch.NoDeadlock` | src/runtime.rs:246-284 | while a call is in progress, it can return or the fetch task can move |
| `Prefetch.DeliveredPrefixExactly` | src/conversion.rs:373-403 | delivered rows are a prefix of the stream's rows if no batch follows a chunk that did not convert; for streams of pairwise different rows, if and only if |
| `Prefetch.SkippedChunkRun` | src/conversion.rs:393-395 | a stream whose delivered rows are not a prefix, because a batch follows a chunk that did not convert |
| `Prefetch.BoundPipeline` | src/conversion.rs:432-469 | end to end for a bound query: in every interleaving the rows handed over are a prefix of the rows of all bound statements in order, and a clean end of a source that does not fail delivers exactly those |
| `LikeMatching.LikeMatcher.Run` | src/metadata.rs:183-217 | true exactly when the declarative meaning of the pattern holds, within (pattern length + 1) times (value length + 1) iterations, the one that gives up included |
| `LikeMatching.PlainMeans` | src/metadata.rs:166-182 | without `%` the pattern covers the value one for one, `_` any character and all else itself |
| `LikeMatching.PercentMeans` | src/metadata.rs:166-182 | a `%` anywhere lets what is before it cover a front of the value and what is behind it a back that does not overlap |
| `Lexing.LexCovers` | src/sql.rs:209-252 | the lexemes of every text concatenate back to it |
| `Lexing.LexOfText` | src/sql.rs:209-252 | any coherent list of lexemes is what its text lexes to |
| `Lexing.LexCoherent` | src/sql.rs:209-252 | what a text lexes to is always coherent |
| `Lexing.Seam` | src/sql.rs:87-252 | lexing a joined text is lexing both parts exactly when the seam is safe |
| `Extents.LiteralExtent` | src/sql.rs:108-144 | a literal ends at its first quote with an even number of backslashes before it, a triply quoted one at the first three such quotes in a row, or else at the end of the text |
| `Extents.CommentExtent` | src/sql.rs:196-235 | a line comment ends behind its first newline, a block comment behind its first star and slash, or else at the end |
| `Extents.WordRun` | src/sql.rs:205-252 | a word is the longest run of letters, digits and underscores; any other character stands alone |
| `LexerLoop.Lexer.ConsumeQuoted` | src/sql.rs:108-144 | the cursor ends where the literal does, for single, triple, escaped and unterminated literals |
| `LexerLoop.Lexer.ConsumeLineComment` | src/sql.rs:196-202 | the cursor ends behind the newline or at the end |
| `LexerLoop.Lexer.Next` | src/sql.rs:212-252 | yields the first lexeme of the rest and moves the cursor past it; none exactly at the end |
| `LexerLoop.Tokens` | src/sql.rs:171-252 | draining the lexer gives the lexemes of the text |
| `Trimming.DropLastSpace` | src/sql.rs:323-339 | dropping a trailing space changes at most the last lexeme, and not its kind |
| `Splitting.PushStatement` | src/sql.rs:323-339 | keeps a segment, trimmed, exactly when it holds more than comments and spaces |
| `Splitting.SplitStatements` | src/sql.rs:282-296 | the statements are the kept segments between top-level semicolons |
| `Splitting.StripTrailingTerminators` | src/sql.rs:314-321 | the result splits into the same statements and is a fixed point; a single statement comes out trimmed and without top-level semicolons, any other text unchanged |
| `Splitting.SplitIsStatements` | src/sql.rs:282-339 | every produced statement is trimmed, not blank and free of top-level semicolons |
| `Splitting.BlankMeans` | src/sql.rs:323-339 | a segment is dropped as blank exactly when it holds only comments and white space |
| `Splitting.ReSplit` | src/sql.rs:282-339 | re-splitting a produced statement yields just that statement |
| `Splitting.StripIdempotent` | src/sql.rs:314-321 | stripping twice is stripping once, and never changes the split |
| `Joining.JoinSplit` | src/sql.rs:270-296 | joining the statements with newline, semicolon, newline and splitting again gives the same list |
| `Joining.SplitWeaves` | src/sql.rs:282-339 | every text is its statements, verbatim and in order, with only comments, spaces and semicolons around them |
| `Classification.SignificantLexemes` | src/sql.rs:261-268 | drops exactly comments and spaces |
| `Classification.FirstKeyword` | src/sql.rs:358-384 | the leading letters of the first word behind whole statement hints |
| `Classification.KeywordMeans` | src/sql.rs:358-384 | leading letters of a first word, nothing for any other first lexeme, and a hint up to its first closing brace passed over |
| `Classification.DdlMeans` | src/sql.rs:29-44 | a text is DDL exactly when its first word is one of seven, in any case |
| `Classification.IsDmlReturning` | src/sql.rs:61-85 | true exactly when THEN and RETURN meet outside every CASE with no literal between them |
| `Classification.ReturnBehindCases` | src/sql.rs:61-85 | behind nested CASE expressions THEN RETURN counts exactly when as many ENDs as CASEs have been read |
| `Classification.AfterThenMeans` | src/sql.rs:61-85 | comments and punctuation may stand between THEN and RETURN, a literal or another word may not |
| `Classification.PrefixTransparent` | src/sql.rs:341-384 | spaces, closed comments and whole hints in front of a text do not change its first keyword |
| `Erasure.LexErased` | src/sql.rs:209-252 | erasing comments turns exactly the comment lexemes into spaces |
| `Erasure.ErasureErases` | src/sql.rs:209-252 | lexeme by lexeme, each comment becomes one space and everything else stays |
| `Erasure.ErasureKeepsMeaning` | src/sql.rs:61-85 | comment erasure changes neither the first keyword nor whether rows are returned, for every text |
| `Erasure.ErasureSplit` | src/sql.rs:282-339 | the erased text splits into as many statements, each the trimmed erasure of the original |
| `Parameters.NamedParameters` | src/sql.rs:406-453 | the first spelling of every referenced name, in order, pairwise different without regard to case |
| `Parameters.ReferenceMeans` | src/sql.rs:406-453 | `@` before a word that does not begin with a digit, or before a backticked name without escapes, refers to that name |
| `Parameters.NoReference` | src/sql.rs:406-453 | `@@`, `@{` and `@` before any other literal refer to nothing, and take the next lexeme with them |
| `Parameters.DedupMeans` | src/sql.rs:406-453 | a name is reported exactly when no earlier one is the same up to case |
| `Parameters.ParamsComposeWithSplit` | src/sql.rs:406-453 | the parameters of a batch are the deduplicated parameters of its statements |
| `Parameters.ErasureKeepsParameters` | src/sql.rs:406-453 | comment erasure changes no parameter |
| `Parameters.ParametersArePlain` | src/sql.rs:406-453 | no reported parameter is empty or holds a backtick or a backslash |
| `Parameters.ResolveParameterNames` | src/bind.rs:108-161 | accepts exactly the documented positional and by-name pairings; the names bound are pairwise different and spelled as in the query |
| `Ddl.IdentSpelt` | src/sql.rs:478-500 | an accepted identifier, quoted, is one lexeme that holds it unchanged |
| `Ddl.TableSpelt` | src/sql.rs:509-518 | a qualified table reads back as the optional schema and the table name |
| `Ddl.FieldTypeSpelt` | src/bind.rs:608-656 | a column type is made of words and brackets only: it can hold neither a name nor a semicolon |
| `Ddl.CreateTableSql` | src/bind.rs:671-692 | refuses exactly the schemas with an unmappable type or an unquotable name; otherwise one statement, classified as DDL, whose tokens are CREATE TABLE, the guard if asked for, the qualified name and each column's name and type with commas between, and whose quoted lexemes are the names in order |
| `Ddl.TableTextReads` | src/bind.rs:671-692 | the same for the text itself, for all tables, schemas and fields |
| `Ddl.TablePrintable` | src/sql.rs:478-500 | generated text holds no control character |
| `IngestTypes.TypeTextUnique` | src/bind.rs:608-656 | no two column types are spelled the same |
| `IngestTypes.FieldTypeSpells` | src/bind.rs:646-656 | the generated text spells one Spanner type, or the field is refused |
| `IngestTypes.ReadsBackExactly` | src/conversion.rs:549-708 | a created column reads back as the ingested field, nullability, metadata, time unit and zone included, if and only if the field is nullable at every depth and of the read path's own type |
| `IngestTypes.WidenedOnReadBack` | src/conversion.rs:549-708 | a narrower integer, a timestamp without a zone and a required column are accepted and read back different |
| `Numerics.WholePart` | src/conversion.rs:1217-1224 | checked accumulation fails exactly on a non-digit or when the whole value exceeds `i128` |
| `Numerics.FractionPart` | src/conversion.rs:1227-1235 | the fraction at nine places; the unchecked arithmetic never leaves `i128` |
| `Numerics.ParseNumeric` | src/conversion.rs:1194-1238 | accepts exactly `[-]digits[.1 to 9 digits]` with scaled magnitude at most 2^127 - 1, and returns that integer |
| `Numerics.ReadInverts` | src/conversion.rs:1200-1215 | a text reads as a canonical numeral exactly when it is that numeral's text |
| `Numerics.ParsedMeans` | src/conversion.rs:1194-1238 | digits, a point and one to nine digits mean their number times 10^9, negated behind a minus, or nothing when that is too big |
| `Numerics.RoundTrip` | src/bind.rs:587-601 | parsing a printed decimal multiplies it by 10^(9 - scale) exactly when the scale is at most nine and the product fits |
| `Numerics.RoundTripScaleNine` | src/bind.rs:587-601 | at scale nine all of `i128` but the least value comes back unchanged |
| `Calendar.CivilNumber` | src/conversion.rs:1098-1104 | stepping day by day from the epoch agrees with the closed-form day number |
| `Calendar.MonthStarts` | src/conversion.rs:1098-1104 | the day of the year on which each of the twelve months begins, in leap years and others |
| `Calendar.NumberOrders` | src/conversion.rs:1098-1104 | day numbers order dates, and different dates have different numbers |
| `Calendar.ParsePrinted` | src/conversion.rs:1086-1105 | parsing a printed date gives its day back exactly for days -719528 to 2932896, the four-digit years |
| `Calendar.PrintParsed` | src/bind.rs:514-524 | whatever parses is what its day prints as |
| `Calendar.SpannerRange` | src/conversion.rs:1086-1105 | 0001-01-01 to 9999-12-31 are exactly the days -719162 to 2932896, and all of them print |
| `Calendar.TextOrder` | src/bind.rs:514-524 | the lexicographic order of date texts is the numeric order of the days |
| `Timestamps.ScanFraction` | src/conversion.rs:1144-1159 | one to nine digits scaled to nanoseconds; no step leaves `u32` |
| `Timestamps.ScanTimestamp` | src/conversion.rs:1119-1163 | accepts exactly the texts that instants of four-digit years print as, with zero to nine fraction digits, and finds that instant |
| `Timestamps.PrintScanned` | src/conversion.rs:1119-1163 | every accepted text is what its instant prints as, with the text's own number of fraction digits |
| `Timestamps.CountsExact` | src/conversion.rs:1172-1190 | nanoseconds exist exactly when they fit `i64`; microseconds always exist and are the nanoseconds over 1000, rounded down |
| `Timestamps.ScanPrinted` | src/conversion.rs:1119-1163 | scanning a printed instant gives it back, cut to the printed digits, exactly in four-digit years |
| `Timestamps.InstantExact` | src/bind.rs:557-583 | the instant printed for a count is that count of units to the nanosecond, also before the epoch |
| `Timestamps.TimestampRoundTrip` | src/bind.rs:557-583 | for every unit, a printed count scans back to its instant exactly in four-digit years |
| `Timestamps.UnitsPrint` | src/bind.rs:557-583 | how many of each unit make a second, and that none, three, six or nine fraction digits are printed |
| `Timestamps.UnitRoundTrip` | src/bind.rs:557-583 | a printed count of seconds, milliseconds, microseconds or nanoseconds parses back to that many microseconds and, where they fit, nanoseconds |
| `Timestamps.NanosRoundTrip` | src/bind.rs:557-583 | every `i64` count of nanoseconds prints and parses back unchanged |
| `Timestamps.MicrosRoundTrip` | src/bind.rs:557-583 | a count of microseconds parses back unchanged exactly in four-digit years |
| `Columnar.BuildScalars` | src/conversion.rs:827-858 | one slot per value, null only for an absent one, and failure exactly when a present value does not decode |
| `Columnar.NullCells` | src/conversion.rs:774-776 | at every type SQL NULL and an absent value decode to null, and nothing else does |
| `Columnar.ScalarCell` | src/conversion.rs:827-858 | a present scalar is what its decoder makes of it, or an error |
| `Columnar.ListCells` | src/conversion.rs:981-1015 | a list decodes element by element in order; a present value that is no list is an error |
| `Columnar.StructCells` | src/conversion.rs:1025-1055 | field k of a struct is the decode of element k, null where there are too few, surplus elements ignored |
| `Columnar.BuildArray` | src/conversion.rs:867-974 | succeeds exactly when every present value at every depth decodes, element totals fit `i32` and no struct is without fields; slot i is then what value i decodes to on its own, null only for SQL NULL or an absent value |
| `Columnar.BuildList` | src/conversion.rs:981-1015 | the same for lists, through offsets, validity and the flattened child |
| `Columnar.BuildStruct` | src/conversion.rs:1025-1055 | the same for structs, positionally: missing fields are null, surplus ones ignored |
| `Columnar.BuildBatch` | src/conversion.rs:738-761 | the cell at row i and column c is the decode of value c of row i, null where the row is too short |
| `BoundStream.PullChunk` | src/conversion.rs:206-227 | the next rows, cut at the row cap, the byte budget or the end; a failed read drops the chunk begun |
| `BoundStream.ChunkUnique` | src/conversion.rs:206-227 | the caps determine the chunk |
| `BoundStream.LazyBoundStatements.NextStatement` | src/statement.rs:89-105 | the next bound row in row-major order, batches without rows passed over |
| `BoundStream.BuildBoundStatements` | src/statement.rs:248-263 | the eager list is the flattened batches, or a failure exactly when a row does not bind |
| `BoundStream.EagerMeans` | src/conversion.rs:517-543 | row by row, a statement brings all reads of its result set, or one failure where it does not bind or does not run |
| `BoundStream.BoundQueryChunks.NextChunk` | src/conversion.rs:517-543 | the next rows of all that is left, within the caps; empty only when nothing is left, even if some rows return nothing |
| `BoundStream.Drain` | src/runtime.rs:246-284 | the fetch task's chunks together are all rows, or a prefix of those before the first failure, short of less than one chunk; no chunk is empty |
| `BoundStream.StreamBoundQuery` | src/conversion.rs:432-469 | lazy streaming delivers exactly the rows of running every bound row's statement in row-major order |
| `Objects.GroupBy` | src/objects.rs:539-633 | the map answers every key with the rows of that key in batch order |
| `Objects.GroupReferential` | src/objects.rs:638-651 | the map answers every foreign key with its first row |
| `Objects.CollectColumns` | src/objects.rs:654-673 | the kept columns of one group, in order |
| `Objects.CollectConstraints` | src/objects.rs:679-718 | equals scanning the constraint, key-column and referential batches for the table |
| `Objects.AssembleObjects` | src/objects.rs:309-384 | the hash-grouped assembly equals the nested filter-and-rescan, order included |
| `Objects.ListedSchemas` | src/objects.rs:331-340 | the schemas listed are those of the batch that match the schema filter |
| `Objects.ListedTables` | src/objects.rs:341-358 | the tables listed are those of the schema that match the name filter and have a listed type |
| `Objects.ListedColumns` | src/objects.rs:557-673 | the columns listed are those of the table that match the column filter, nullable exactly where the row says YES, with the ordinal cut to 32 bits |
| `Objects.ListedConstraints` | src/objects.rs:679-718 | the constraints listed are those of the table, and only foreign keys have usages |
| `Objects.SortedIsStableSort` | src/objects.rs:753 | the links come out in ordinal order, all of them, equal ordinals in their order |
| `Objects.ForeignKeyUsages` | src/objects.rs:726-765 | usages from the index by ordinal equal those from scanning the parent's rows, the last row winning |
| `Objects.ParentMeans` | src/objects.rs:738-744 | the parent column at an ordinal is the schema, table and column of the last row with that ordinal |
| `Objects.ParseI64Means` | src/objects.rs:738-752 | ordinals are the numbers their digits denote, with an optional sign, within 64 bits |
| `Objects.UsagesInKeyOrder` | src/objects.rs:719-765 | a foreign key that resolves has one usage per key column: usage i is what the column with the i-th ordinal points at |
| `Objects.AlignedExactlyInOrder` | src/objects.rs:719-765 | usages line up with the reported key columns exactly when the column with the i-th ordinal points where the i-th reported one does; ordinal order of the batch suffices, and is needed unless parent columns repeat |
| `Objects.OutOfOrder` | src/objects.rs:719-765 | a batch out of ordinal order, which the query's ORDER BY rules out, whose usages do not line up |
| `Objects.RepeatedParent` | src/objects.rs:719-765 | with a repeated parent column usages can line up out of order |
| `ObjectsBatch.ListOfNullable` | src/nested.rs:71-100 | fails exactly when the elements do not fit `i32`; otherwise reads back as the groups whose elements were flattened |
| `ObjectsBatch.BuildConstraintStruct` | src/objects.rs:899-956 | every constraint reads back with its columns, and with its usages or SQL NULL for other kinds than foreign keys |
| `ObjectsBatch.Build` | src/objects.rs:770-865 | flattening and splitting again recovers the hierarchy cut to the depth; fails exactly when some level does not fit `i32` |
| `ObjectsBatch.ReadsHierarchy` | src/objects.rs:770-984 | read by position, the result is the hierarchy with every field in place and in order, cut to the depth; SQL NULL marks exactly the levels the depth leaves out |
| `ObjectsBatch.AssembledFits` | src/objects.rs:679-718 | what the assembly produces loses nothing in the result |

## Left out

- RPCs, retries, deadlines and the admin DDL call: each is a success or a failure here, as reported; an
  ambiguous failure that did apply is not told apart.
- `Notify` of the runtime: a notification wakes the waiters registered at that moment, which is the weaker of
  its guarantees.
- Abandoning a reader in the middle of a stream, which aborts the fetch task.
- Option parsing, the FFI layer, statistics, info codes, partition descriptors and directed reads: shallow
  checks or glue.
- Error messages and status codes: a failure is a failure.
- Decoding of single floating-point, base64 and JSON values: `Columnar` takes the scalar decoder as a
  parameter, so its results hold for every decoder.
- The estimate of a row's wire size: a chunk's budget is charged with whatever estimate a row carries.
- Bind values other than dates, timestamps and decimals.
- `is_dml`: the first keyword against three others; `is_ddl` is modelled.
- Byte totals of text and binary columns, whose Arrow offsets are `i32` too: `Columnar.Buildable` bounds the
  element totals of lists only.
- `ObjectsBatch.Build`: the `xdbc` fields that are always null are not modelled.
- `BoundStream.BuildBoundStatements`: resolving parameter names once per batch happens before, in
  `Parameters.ResolveParameterNames`; what is bound to a row is opaque.
- The fetch of the INFORMATION_SCHEMA batches and the filters pushed into its SQL: the client-side filters
  are authoritative and are modelled.
- Byte widths of UTF-8, Unicode case folding outside ASCII, and recovery from a poisoned lock.
