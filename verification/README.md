# spanbarn in Dafny

A model of the parts of spanbarn whose correctness is hard to see, with proofs of what they
promise. `dafny verify dfyconfig.toml` verifies all of it. Nothing here runs the program.

* **Calculated fields** (`internal/calcfield`): lexer, precedence ladder, compiler to
  parameterised SQL and sets of fields that inline each other. Files `Calc*.dfy` and `Sql*.dfy`.
  The grammar, a printer, a SQL fragment with NULL and three-valued logic, and a meaning of
  trees are defined apart from the code they are compared with.
* **Login sessions** (`internal/api/sessions.go`): refresh-token rotation with one refresh in
  flight per session, and
  read-only replicas, as a state machine over its steps. Files `Session*.dfy`.
* **Aggregation** (`internal/aggregation`): the repeat filter (`Repeat*.dfy`), span rollups,
  caps and edges (`Slots`, `Durations`, `Caps`, `SpanRollups`, `SpanEdges`), the streaming
  accumulator against the batch aggregator (`Aggregate*.dfy`), and metric rollups (`Metric*.dfy`).
* **Reading and guarding**: the two-tier metric read (`TierTail`), the rate limiter
  (`RateLimits`), service-level counting (`SloCounts`).
* **The logs consumer** (`LogsConsumer`): claim, retry, acknowledge, reclaim.

Code that updates an object in place is a class, and its loops are loops; each method is proved
equal to a function or to a step of a state machine, and the theorems are proved about those.
Concurrency is every interleaving of the steps that a lock makes atomic. I/O, clocks and the
answers of other services are parameters of the steps.

## Findings

* `concat` with three or more arguments emits one unbracketed chain of joins, whose text has
  several readings (`CalcReadings.ConcatReadTwoWays`); nothing else the compiler emits has
  (`CalcReadings.LookupReading`). All the readings agree on the value (`SqlMeaning.SameEval`).
* A field name given twice stays unusable if any of its expressions failed to parse, even when
  its last one parses (`CalcSetObject.FieldsByName`, `CalcSetObject.EarlierTextSpoils`).
* "No rotated refresh token is sent again" fails in three ways, and only those
  (`SessionTokens.ResentExactlyWhen`): a grant that fails after the provider rotated
  (internal/api/sessions.go:319-320), new tokens that cannot be saved while the row stays (:343-350),
  and the delete after access was lost, whose error is ignored (:334). The last two also let one
  access token be refreshed twice by a provider that accepts replays
  (`SessionTokens.OneGrantExactlyWhen`).
* A failure stamp that cannot be stored, whose error is ignored (:367), restarts the grace of an
  outage; nothing else overruns it (`SessionTimes.GraceExactlyWhen`).
* A request that is handed a row by a flight does not look at its expiry again, so it can be
  served an expired token although no refresh failed (`SessionHandover.HandedExactlyWhen`). A
  flight is judged by the token of the request that started it, so a request can even be handed
  the expired row it came with (`SessionHandover.JoinedFlightReturnsOwnRow`).
* The absolute expiry bounds when a session is loaded, not when it is served
  (`SessionExpiry.ExpiryExactlyWhen`, `SessionExpiry.ServedPastAbsoluteExpiry`).
* A metric point that arrives for a bucket already flushed makes a second row of it, and nothing
  else does (`MetricFlush.TwoRowsExactlyWhen`).
* A service-level counter that catches up after more than 60 buckets leaves a hole for good
  (`SloCounts.NoHolesExactlyWhen`).
* Sums of value increases over the points the repeat filter writes are exact even across sweeps.
* A metric slot depends on the order of arrival exactly when the points disagree on type, unit,
  attributes or temporality, when delta distributions differ in bounds or length, or when the
  newest cumulative snapshot cannot be read (`MetricOrder.OrderExactlyWhen`).
* A metric read with a limit above 50000, or none, can have a hole between its tiers: each tier
  is then cut at 10000 rows on its own (`TierTail.HoleExactlyWhen`, `TierTail.HoleSeen`). A
  watermark exactly at the end of the range leaves out the 5-minute bucket that starts there
  (`TierTail.LeftOutExactlyWhen`, `TierTail.WatermarkAtEnd`).

## Model

| member | source | states |
|---|---|---|
| `CalcGrammar.Complete` | internal/calcfield/parse.go:159-292 | A grammatical phrase standing anywhere in the tokens, with room left under the node and depth caps, is read by its rung of the ladder to exactly its tree, position and node count. |
| `CalcSound.Sound` | internal/calcfield/parse.go:159-292 | Whatever a rung returns is the tree of some grammatical phrase of that rung which stands at that position within the caps. |
| `CalcPrinter.ParseIsGrammar` | internal/calcfield/parse.go:80-100 | The parser accepts a token list with tree t if and only if the list is a sentence of the grammar within the caps whose tree is t; so left associativity, non-associative comparison, erased unary plus and the optional trailing comma are exactly those of the grammar. |
| `CalcPrinter.RoundTrip` | internal/calcfield/parse.go:28-100 | Printing a well-formed tree with the brackets the ladder needs and parsing it gives the tree back if and only if it has at most 200 nodes and its print nests within the depth cap. |
| `CalcPrinter.ShowIsLeast` | internal/calcfield/parse.go:159-292 | No phrase of a tree has fewer brackets, or nests less deeply, than the printed one. |
| `CalcPrinter.TreeWithinCaps` | internal/calcfield/parse.go:145-150 | Every successful parse gives a tree of at most 200 nodes that prints, and so parses back, within the caps. |
| `CalcPrinter.SentenceParses` | internal/calcfield/parse.go:80-100 | Every sentence within the caps parses to its tree. |
| `CalcPrinter.ParsedIsSentence` | internal/calcfield/parse.go:80-100 | Every token list that parses is a sentence with that tree; the phrase is produced. |
| `CalcParserObject.Parser.constructor` | internal/calcfield/parse.go:91-92 | The mutating parser: a parser starts at the first token with no nodes. Result, position, node count and error are those of the ladder function, about which the grammar theorems are proved. |
| `CalcParserObject.Parser.Mk` | internal/calcfield/parse.go:145-150 | The mutating parser: counts the node and refuses the one past the cap. Result, position, node count and error are those of the ladder function, about which the grammar theorems are proved. |
| `CalcParserObject.Parser.ParseOr` | internal/calcfield/parse.go:159-171 | The mutating parser: checks the depth, reads an operand and loops over "or". Result, position, node count and error are those of the ladder function, about which the grammar theorems are proved. |
| `CalcParserObject.Parser.ParseAnd` | internal/calcfield/parse.go:173-182 | The mutating parser: loops over "and". Result, position, node count and error are those of the ladder function, about which the grammar theorems are proved. |
| `CalcParserObject.Parser.ParseNot` | internal/calcfield/parse.go:184-196 | The mutating parser: reads "not" one level deeper. Result, position, node count and error are those of the ladder function, about which the grammar theorems are proved. |
| `CalcParserObject.Parser.ParseCompare` | internal/calcfield/parse.go:200-214 | The mutating parser: reads at most one comparison. Result, position, node count and error are those of the ladder function, about which the grammar theorems are proved. |
| `CalcParserObject.Parser.ParseSum` | internal/calcfield/parse.go:216-230 | The mutating parser: loops over plus and minus. Result, position, node count and error are those of the ladder function, about which the grammar theorems are proved. |
| `CalcParserObject.Parser.ParseProduct` | internal/calcfield/parse.go:232-246 | The mutating parser: loops over times and divide. Result, position, node count and error are those of the ladder function, about which the grammar theorems are proved. |
| `CalcParserObject.Parser.ParseUnary` | internal/calcfield/parse.go:248-262 | The mutating parser: reads signs one level deeper and drops a plus. Result, position, node count and error are those of the ladder function, about which the grammar theorems are proved. |
| `CalcParserObject.Parser.ParsePrimary` | internal/calcfield/parse.go:264-292 | The mutating parser: reads a literal, name, call or bracketed expression. Result, position, node count and error are those of the ladder function, about which the grammar theorems are proved. |
| `CalcParserObject.Parser.ParseCall` | internal/calcfield/parse.go:294-322 | The mutating parser: reads arguments up to the cap, a trailing comma included, and checks the argument count. Result, position, node count and error are those of the ladder function, about which the grammar theorems are proved. |
| `CalcParserObject.ParseTokens` | internal/calcfield/parse.go:80-100 | Parsing with the mutating parser returns what the ladder function returns, trailing tokens refused. |
| `CalcLexer.OneExact` | internal/calcfield/lex.go:77-189 | A spelling of a token followed by a space or nothing is read as that token and nothing more. |
| `CalcLexer.LexReadsBack` | internal/calcfield/lex.go:59-75 | Spellings with spaces between them lex back to exactly their tokens. |
| `CalcLexer.OneSpells` | internal/calcfield/lex.go:77-189 | Whatever is read as a token spells that token (quotes doubled, numbers with at most one point, reserved words in any case). |
| `CalcLexer.LexSpells` | internal/calcfield/lex.go:59-75 | Whatever lexes is a list of spelled tokens; the spellings are produced. |
| `CalcLexer.ScanString` | internal/calcfield/lex.go:137-155 | The character loop over a string literal returns the text with doubled quotes undone, or the error of the literal grammar. |
| `CalcLexer.ScanNumber` | internal/calcfield/lex.go:107-134 | The number scan finds the longest number and refuses one followed by a letter or a point. |
| `CalcLexer.ScanWord` | internal/calcfield/lex.go:92-105 | The word scan finds the longest word, caps its length and lowers reserved words. |
| `CalcLexer.ScanOne` | internal/calcfield/lex.go:77-90 | The scan of one token is the token grammar. |
| `CalcLexer.Scan` | internal/calcfield/lex.go:59-75 | The lexer loop returns the tokens of the whole text or the first error. |
| `CalcSource.Parse` | internal/calcfield/parse.go:80-100 | From source text to tree: length cap, blank text, lexing and parsing as one method equal to their composition. |
| `CalcSource.SourceRoundTrip` | internal/calcfield/parse.go:80-100 | A tree within the caps, printed, spelled and spaced within the length cap, reads back from text to the same tree. |
| `CalcSource.SourceWithinCaps` | internal/calcfield/parse.go:28-100 | Whatever parses from text is within the caps and prints and parses back to itself. |
| `SqlSyntax.ReadingsAgree` | internal/calcfield/compile.go:70-126 | Two SQL phrases with the same text are the same up to the grouping of operators no bracket separates, whatever precedence a SQL parser gives them. |
| `SqlReadings.OneReadingExactlyWhen` | internal/calcfield/compile.go:70-126 | A SQL text can be read in one way only, whatever the precedences, if and only if at every level brackets hold at most one operator and no NOT stands before it. |
| `SqlReadings.RegroupedReads` | internal/calcfield/compile.go:120-126 | Any other phrase has a second reading with the same text; it is produced. |
| `SqlMeaning.SameEval` | internal/calcfield/compile.go:120-126 | Readings that differ only in grouping evaluate alike when every unbracketed chain is a single operator or a join chain. |
| `SqlMeaning.JoinChain` | internal/calcfield/compile.go:120-126 | However a chain of joins is grouped, it evaluates to its operands joined in order, NULL if any is NULL. |
| `CalcCorrect.NodeSpells` | internal/calcfield/compile.go:51-117 | The emitted text with its arguments bound left to right to its placeholders is exactly the SQL phrase of the tree, and there are as many placeholders as arguments. |
| `CalcCorrect.ResolveSpells` | internal/calcfield/set.go:72-88 | The same for a resolved name, whether an operand or an inlined field. |
| `CalcTheorem.ToSqlClosed` | internal/calcfield/compile.go:70-126 | If every operand is an atomic phrase, so is the phrase of every tree: emitted SQL is proof against any precedence. |
| `CalcTheorem.RefClosed` | internal/calcfield/set.go:72-88 | An inlined field or operand is an atomic phrase. |
| `CalcTheorem.ToSqlValue` | internal/calcfield/compile.go:51-117 | Evaluating the phrase of a tree gives the tree's own meaning: three-valued logic, NULL for a missing operand or a zero divisor, coalesce, if and concat included. |
| `CalcTheorem.LookupMeaning` | internal/calcfield/set.go:59-88 | For every field that looks up, placeholders equal arguments, the bound text is that of the field's phrase, and every reading of the bound text is atomic and evaluates to the field's value. |
| `CalcReadings.ExpressionReading` | internal/calcfield/compile.go:70-126 | The SQL of an expression has exactly one reading if and only if no concat in it joins three parts or more and every operand it names has one reading. |
| `CalcReadings.LookupReading` | internal/calcfield/set.go:59-88 | What a lookup emits, with its arguments bound, has exactly one reading if and only if that holds of every field reachable from the name by references. |
| `CalcReadings.SpanLookupReading` | internal/calcresolve/calcresolve.go:15-24 | Over the columns and attributes of spans, whose text always has one reading, only a concat of three parts in a reachable field spoils it. |
| `CalcReadings.ConcatReadTwoWays` | internal/calcfield/compile.go:120-126 | The text of a concat of any three parts is also the text of another phrase, which joins the first two first. |
| `CalcTheorem.FieldEquation` | internal/calcfield/set.go:72-88 | A healthy field's value is the meaning of its own expression with every reference read as the value of the field or operand it names. |
| `CalcTheorem.OperandValueIsUnique` | internal/calcfield/set.go:72-88 | Every reading of an operand's bound text has the operand's value. |
| `CalcLookup.LookupSucceeds` | internal/calcfield/set.go:44-88 | Lookup succeeds if and only if no path of references from the field repeats a field or meets one that failed to parse or reads an unreadable operand, and the full expansion has at most 2000 terms; the budget left is exactly what the expansion did not use. |
| `CalcLookup.NodeOutcome` | internal/calcfield/compile.go:38-117 | Compiling a tree succeeds if and only if its references are clean and its weight fits the budget left, and spends exactly that weight. |
| `CalcLookup.ResolveOutcome` | internal/calcfield/set.go:72-88 | Resolving a name succeeds if and only if the search below it is clean and its terms fit, and spends exactly those terms. |
| `CalcLookup.CleanIsHealthy` | internal/calcfield/set.go:72-88 | A search that the compiler's stack finds clean has only healthy paths. |
| `CalcLookup.HealthyIsClean` | internal/calcfield/set.go:72-88 | When every path is healthy the search with a stack finds nothing to refuse. |
| `CalcSetObject.ValueSqlIsClosed` | internal/filter/compile.go:118-131 | Every span operand is one atomic phrase that binds exactly its own arguments. |
| `CalcSetObject.SpanOperandsAreClosed` | internal/calcresolve/calcresolve.go:15-24 | A set over span operands meets everything the compiler theorems ask of operands. |
| `CalcSetObject.FieldsByName` | internal/calcfield/set.go:28-41 | A name has an expression if and only if some field has it, and is bad if and only if any of its fields failed to parse, even when its last one did not. |
| `CalcSetObject.EarlierTextSpoils` | internal/calcfield/set.go:28-55 | For every name: an empty expression followed by a good one under the same name leaves the good one stored, yet the field cannot be looked up, while the good one alone can. |
| `CalcSetObject.LastFieldStands` | internal/calcfield/set.go:28-41 | A name given twice keeps the expression of its last field. |
| `CalcSetObject.FieldsAreWellMade` | internal/calcfield/set.go:28-41 | Every stored expression is well formed, and a name without one is bad. |
| `CalcSetObject.Fields.constructor` | internal/calcfield/set.go:28-41 | The loop over the fields builds the two maps of the set. |
| `CalcSetObject.Fields.Node` | internal/calcfield/compile.go:51-68 | The compiler over a shared mutable budget emits what the pure compiler emits and leaves the budget it leaves. |
| `CalcSetObject.Fields.Call` | internal/calcfield/compile.go:97-117 | A call compiles its arguments left to right against the same budget. |
| `CalcSetObject.Fields.Resolve` | internal/calcfield/set.go:72-88 | Resolving a name against the stack: operand, cycle or inlined field. |
| `CalcSetObject.Fields.CompileField` | internal/calcfield/set.go:50-55 | A bad field reports its parse error, any other compiles its expression. |
| `CalcSetObject.Fields.Find` | internal/calcfield/set.go:59-68 | Lookup with a fresh budget returns the lookup of the model: absent, text with arguments, or the failure. |
| `CalcSetObject.Fields.Validate` | internal/calcfield/set.go:92-99 | Validation reports no error if and only if every field that can be looked up compiles, and an error it reports is one of theirs. |
| `Repeats.KeepListed` | internal/aggregation/metric_repeats.go:97-126 | Every stream stays listed under its series exactly once after a point. |
| `Repeats.SweepListed` | internal/aggregation/metric_repeats.go:155-170 | And after a sweep. |
| `RepeatRuns.WrittenPoints` | internal/aggregation/metric_repeats.go:82-170 | Over every run of batches and sweeps the written points of a stream are an in-order subsequence of its input starting with its first point, each at most once; a point left out repeats the last written one within a heartbeat; for a stream never swept every change is written with the point just before it. Points outside streams are all written in order. |
| `RepeatRuns.RatesStayExact` | internal/aggregation/metric_repeats.go:82-138 | The sum of increases over the written points equals the sum over all points, for any rule in which a repeat adds nothing: with times included while the stream is never swept, and with values alone in every run. |
| `RepeatRuns.RestartStoresTotals` | internal/aggregation/metric_repeats.go:82-138 | Over every run: when a point opens a stream of a series, the newest point so far of every other stream the filter tracks for that series is written, and stands before the new stream's first point in the output. |
| `RepeatRuns.NewStreamSettles` | internal/aggregation/metric_repeats.go:97-138 | The step behind it: no stream of the series is left with a point held back. |
| `RepeatRuns.StepInv` | internal/aggregation/metric_repeats.go:97-126 | One point keeps the invariant that ties what the filter remembers to what it was given and wrote. |
| `RepeatRuns.SweepInv` | internal/aggregation/metric_repeats.go:155-170 | So does a sweep, for streams counted as forgotten. |
| `RepeatFilter.Filter.KeepPoint` | internal/aggregation/metric_repeats.go:97-126 | The in-place filter step writes and remembers what the state machine does. |
| `RepeatFilter.Filter.ReleaseSeries` | internal/aggregation/metric_repeats.go:129-138 | The release loop writes every held point of a series in start order. |
| `RepeatFilter.Filter.SweepIdle` | internal/aggregation/metric_repeats.go:155-170 | The sweep loop, in any order over the map, forgets exactly the idle streams and their starts. |
| `RepeatFilter.Filter.Keep` | internal/aggregation/metric_repeats.go:82-95 | A batch is the fold of its points followed by the sweep. |
| `RepeatFilter.KeepThrough` | internal/aggregation/metric_repeats.go:69-95 | A filter with no heartbeat does not exist and keeps every point. |
| `Slots.RequeueSlots` | internal/aggregation/span_rollups.go:299-313 | The requeue loop folds exactly the kept slots into what arrived meanwhile and counts the others. |
| `Slots.Conservation` | internal/aggregation/span_rollups.go:158-313 | For any commutative merge and every interleaving of adds, overlapping flushes and full, partial or failed writes: stored plus open plus in flight plus dropped equals everything added, key by key. |
| `Slots.GroupConservation` | internal/aggregation/span_rollups.go:158-313 | The same for the total over any group of keys. |
| `Slots.RunMaps` | internal/aggregation/accumulator.go:165-245 | A run seen through a map that respects merging is the run of what the map sees. |
| `Durations.ObserveIsMerge` | internal/aggregation/span_rollups.go:106-126 | Observing a span in a slot that holds one is merging the span's own stats. |
| `Durations.MergeLaws` | internal/aggregation/span_rollups.go:118-126 | Merging stats is commutative and associative, histogram and extremes included. |
| `Durations.SummaryScalars` | internal/aggregation/span_rollups.go:106-126 | Merged stats of spans hold their count, sum and weights, and the exact minimum and maximum. |
| `Durations.SummaryHist` | internal/aggregation/span_rollups.go:106-126 | A histogram bin exists if and only if a span falls in it, and holds their count and exact extremes. |
| `SpanRollups.RollupConservation` | internal/aggregation/span_rollups.go:158-313 | Over every interleaving, what is stored, open, in flight or dropped of a key is together the summary of the spans recorded under it. |
| `SpanRollups.FoldingKeepsTotals` | internal/aggregation/span_rollups.go:158-187 | Folding labels past the caps never changes the totals of a bucket, project, kind, root, status and code. |
| `SpanRollups.RowKey` | internal/aggregation/span_rollups.go:233-265 | The key of a row is the only key the row can have been made for. |
| `SpanRollups.Rollups.AddSpan` | internal/aggregation/span_rollups.go:158-187 | Adding a span updates the caps and folds its stats under the admitted label. |
| `SpanRollups.Rollups.TakeSlots` | internal/aggregation/span_rollups.go:210-231 | The locked part of a flush takes all slots and prunes the caps. |
| `SpanRollups.Rollups.Requeue` | internal/aggregation/span_rollups.go:267-313 | After a failed write the slots whose rows did not land return, merged, unless older than an hour; the lost ones are counted. |
| `Caps.LabelsAreCapped` | internal/aggregation/span_rollup_caps.go:31-84 | Over every run that does not forget the hour, the labels handed out for one project in one hour number at most MaxServices*(MaxNames+1)+1. |
| `Caps.LabelIsKept` | internal/aggregation/span_rollup_caps.go:31-58 | A held name keeps its own label for the rest of the hour. |
| `Caps.OwnLabelIsHeld` | internal/aggregation/span_rollup_caps.go:31-58 | A span given its own label is held from then on. |
| `Caps.ReportedOnce` | internal/aggregation/span_rollup_caps.go:31-66 | An overflow is reported at most once per key while its hour is remembered. |
| `Caps.FirstIsRecorded` | internal/aggregation/span_rollup_caps.go:60-66 | A reported overflow stays recorded. |
| `Caps.RollupCaps.ReportOnce` | internal/aggregation/span_rollup_caps.go:60-66 | True exactly the first time for a key. |
| `Caps.RollupCaps.AskFor` | internal/aggregation/span_rollup_caps.go:31-58 | Admission in place: label, report flag and new tables of the model. |
| `Caps.RollupCaps.ForgetBefore` | internal/aggregation/span_rollup_caps.go:70-84 | Pruning in place keeps exactly the current and the previous hour. |
| `Caps.PruneLoop` | internal/aggregation/span_rollup_caps.go:70-84 | The delete loop over one table, in any order. |
| `SpanEdges.EdgeConservation` | internal/aggregation/span_edges.go:75-188 | Over every run, what exists of an edge anywhere is the duration summary and failure count of its calls. |
| `SpanEdges.SummedMeans` | internal/aggregation/span_edges.go:90-111 | Folded calls hold the summary of their durations and the number that failed. |
| `SpanEdges.TargetKeptUnlessCapped` | internal/aggregation/span_edges.go:90-111 | Only capping replaces a call's target, and never its type. |
| `SpanEdges.EveryBucketIsMarked` | internal/aggregation/span_edges.go:75-140 | Over every run, a bucket a span arrived in is waiting to be marked, being marked, marked, or was given up more than an hour after it. |
| `SpanEdges.Edges.MarkBuckets` | internal/aggregation/span_edges.go:75-86 | Every bucket of a batch is set down for marking. |
| `SpanEdges.Edges.AddCall` | internal/aggregation/span_edges.go:90-111 | Adding a call updates the caps and folds it under the admitted edge. |
| `SpanEdges.Edges.TakeAll` | internal/aggregation/span_edges.go:116-140 | The locked part of a flush takes slots and buckets together. |
| `SpanEdges.Edges.Requeue` | internal/aggregation/span_edges.go:171-188 | After a failed write, unwritten edges and young buckets return. |
| `Buckets.Truncate` | internal/aggregation/bucket.go:9-14 | The bucket start is the aligned time at most an interval before t; an interval that is not positive leaves t alone. |
| `Aggregates.SlotHoldsGroup` | internal/aggregation/accumulator.go:88-112 | A slot filled span by span holds its group's count, failures, durations, weights and weight sums, the lists always in step. |
| `Aggregates.RowsAgree` | internal/aggregation/accumulator.go:175-201 | The row of a slot is the row computed from the group's spans directly. |
| `Aggregates.MergeIsBoth` | internal/aggregation/accumulator.go:238-245 | Merging two slots is the slot of both groups, in order. |
| `Aggregates.GroupedIsFiltered` | internal/aggregation/aggregator.go:62-74 | A key has a group if and only if a span has the key, and the group is those spans in order. |
| `Aggregates.SpansConserved` | internal/aggregation/accumulator.go:88-245 | Over every interleaving of arrivals, overlapping flushes and full, partial or failed writes, each span is in exactly one place: stored, open, in flight or dropped as too old. |
| `Aggregates.SameReport` | internal/aggregation/aggregator.go:52-120 | Two reports of the same groups hold the same rows, in whatever order. |
| `AggregateObjects.GroupRow` | internal/aggregation/aggregator.go:78-96 | The loop over a group computes its row. |
| `AggregateObjects.AggregateSpans` | internal/aggregation/aggregator.go:52-120 | The batch form reports every group once, with the row of its spans. |
| `AggregateObjects.SlotRow` | internal/aggregation/accumulator.go:176-183 | The loop over a slot's durations computes its row. |
| `AggregateObjects.SlotRows` | internal/aggregation/accumulator.go:175-202 | A flush reports every slot once, with the row of its spans. |
| `AggregateObjects.Accumulator.AddSlot` | internal/aggregation/accumulator.go:88-112 | Adding a span appends it to the group of its key. |
| `AggregateObjects.Accumulator.AddBatch` | internal/aggregation/accumulator.go:71-78 | A batch is its spans one by one. |
| `AggregateObjects.Accumulator.TakeRows` | internal/aggregation/accumulator.go:165-202 | A flush takes every slot and reports it. |
| `AggregateObjects.Accumulator.Requeue` | internal/aggregation/accumulator.go:215-245 | After a failed write the unwritten slots return, appended to what arrived meanwhile, unless older than an hour. |
| `AggregateObjects.OneFlushIsOneBatch` | internal/aggregation/aggregator.go:52-120 | Adding any list of spans one by one to a new accumulator and flushing once writes exactly the rows the batch form computes, one per key, each the aggregate of the spans of that key. |
| `MetricOrder.OrderIndependent` | internal/aggregation/metric_accumulator.go:102-232 | Points with distinct times that share type, unit, attributes and temporality, whose delta distributions share a shape and whose newest cumulative snapshot is readable, leave the same slot in every arrival order; older snapshots may be unreadable. |
| `MetricOrder.OrderExactlyWhen` | internal/aggregation/metric_accumulator.go:102-232 | Any number of points with distinct times leave the same slot in every order if and only if they share that header, delta distributions share bounds and length, and the newest cumulative snapshot, if the slot keeps one, is readable. |
| `MetricOrder.TwoOrdersDiffer` | internal/aggregation/metric_accumulator.go:102-232 | Otherwise two orders of the same points are produced that leave different slots. |
| `MetricFold.FoldedAnyOrder` | internal/aggregation/metric_accumulator.go:102-232 | The same from any slot the points can join. |
| `MetricFold.SnapshotStands` | internal/aggregation/metric_accumulator.go:179-210 | A cumulative histogram slot ends as its newest snapshot, if that is readable, whatever the others are: sum, observations, distribution and time. |
| `MetricFold.OpaqueStands` | internal/aggregation/metric_accumulator.go:153-167 | A cumulative exponential histogram or summary slot ends as its newest point. |
| `MetricFold.DeltasAdd` | internal/aggregation/metric_accumulator.go:179-232 | A delta histogram slot ends as the sums over its points, bucket by bucket; unreadable payloads add no buckets. |
| `MetricFold.ValuesFold` | internal/aggregation/metric_accumulator.go:127-141 | A gauge or counter slot holds the sum of its values and the newest one. |
| `MetricFold.ValuesRange` | internal/aggregation/metric_accumulator.go:127-141 | Its minimum and maximum are values of it and bound all of them. |
| `MetricFold.CountsPoints` | internal/aggregation/metric_accumulator.go:125-125 | A slot counts every point that reached it. |
| `MetricFlush.PointsConserved` | internal/aggregation/metric_accumulator.go:240-302 | Over every interleaving of adds, overlapping flushes, partial writes, retries and the shutdown flush, each point is in exactly one of an open slot, a pending row, a row in flight, a stored row or a row given up. |
| `MetricFlush.StepConserves` | internal/aggregation/metric_accumulator.go:240-373 | Every step keeps each key's points, and an add adds exactly its own. |
| `MetricFlush.OneRowPerBucket` | internal/aggregation/metric_accumulator.go:240-302 | While no point arrives for a bucket that already has a row, the bucket has at most one row, however often writing fails and whichever flush took it, the one at shutdown included, and that row is folded from all its points. |
| `MetricFlush.TwoRowsExactlyWhen` | internal/aggregation/metric_accumulator.go:240-302 | Over every run and bucket: no point of the bucket arrives after a row of it was made if and only if flushing everything after any part of the run leaves at most one row of it. |
| `MetricFlush.OnTimeIsNotLate` | internal/aggregation/metric_accumulator.go:240-266 | Points that arrive before their bucket's window ends and before the flush at shutdown never come too late in that sense. |
| `MetricFlush.LostExactlyWhen` | internal/aggregation/metric_accumulator.go:240-302 | Over every run, a row is given up if and only if some flush failed to write it that was the one at shutdown or started at least 30 minutes after the row's bucket. |
| `MetricFlush.TidyRun` | internal/aggregation/metric_accumulator.go:240-302 | The invariant behind it: a bucket has one row made of all its points, or one open slot that holds them all, or no points. |
| `MetricObject.AddCounts` | internal/aggregation/metric_accumulator.go:229-231 | The in-place loop adds one distribution to another bucket by bucket. |
| `MetricObject.FoldHistogram` | internal/aggregation/metric_accumulator.go:215-232 | Matching lengths add, another length replaces, an unreadable payload changes nothing. |
| `MetricObject.FoldValue` | internal/aggregation/metric_accumulator.go:127-141 | Gauges and counters in place. |
| `MetricObject.FoldPoint` | internal/aggregation/metric_accumulator.go:125-146 | One data point into its slot, by type and temporality. |
| `MetricObject.FoldOpaque` | internal/aggregation/metric_accumulator.go:153-167 | The opaque types in place. |
| `MetricObject.CollectClosed` | internal/aggregation/metric_accumulator.go:245-254 | The flush loop, in any order over the map, takes exactly the buckets with start at most now minus the interval and makes their rows; the shutdown flush takes all. |
| `MetricObject.YoungRows` | internal/aggregation/metric_accumulator.go:289-297 | The retry filter keeps exactly the rows within the retry window and counts the others. |
| `MetricObject.MetricAccumulator.AddMetric` | internal/aggregation/metric_accumulator.go:102-147 | Adding a point appends it to the points of its series and bucket; every slot stays the fold of its points. |
| `MetricObject.MetricAccumulator.TakeRows` | internal/aggregation/metric_accumulator.go:240-254 | A flush takes the pending rows first, then one row per closed bucket, and leaves the open buckets alone. |
| `MetricObject.MetricAccumulator.KeepForRetry` | internal/aggregation/metric_accumulator.go:288-302 | Kept rows go before those already pending. |
| `RateLimits.WindowBound` | internal/api/ratelimit.go:82-137 | In any stretch of one client's requests within [lo, hi], cleanups included and times out of order by up to a minute, at most a full bucket plus rate*(hi-lo) requests pass. |
| `RateLimits.ClientBound` | internal/api/ratelimit.go:82-137 | The same for the requests of one client and category among all clients and categories, known or not, however requests and cleanups interleave. |
| `RateLimits.SweepsHidden` | internal/api/ratelimit.go:123-137 | Eviction cannot be noticed: every run gives the requests of a category the answers of the run without cleanups. |
| `RateLimits.NothingWithoutRate` | internal/api/ratelimit.go:82-120 | A category whose rate is zero or negative lets nothing through. |
| `RateLimits.BucketsApart` | internal/api/ratelimit.go:82-137 | No bucket is changed by requests of other keys. |
| `RateLimits.KeysAreOneCategory` | internal/api/ratelimit.go:83-83 | A key belongs to one category and client. |
| `RateLimits.RateLimiter.Allow` | internal/api/ratelimit.go:82-120 | The request in place: new buckets start full, refill is capped, an unknown category passes. |
| `RateLimits.RateLimiter.RemoveStale` | internal/api/ratelimit.go:126-136 | The cleanup loop removes exactly the stale buckets. |
| `TierTail.ReadOnce` | internal/api/metrics_tail.go:25-81 | No instant is read from both tiers. |
| `TierTail.ReadSomewhere` | internal/api/metrics_tail.go:25-81 | Every 5-minute bucket from the one holding from up to the end is read from one of the tiers. |
| `TierTail.LeftOutExactlyWhen` | internal/api/metrics_tail.go:25-81 | A bucket's rows are out of reach if and only if its hour is not compacted and the bucket lies before the tail or no tail is read. |
| `TierTail.NothingLeftOut` | internal/api/metrics_tail.go:69-81 | A compactor less than six hours behind and short of the end leaves nothing out. |
| `TierTail.WatermarkAtEnd` | internal/api/metrics_tail.go:69-81 | A watermark at the end of the range, on the hour, leaves out the 5-minute bucket that starts there. |
| `TierTail.NewestOfBoth` | internal/api/metrics_tail.go:33-63 | For a limit from 1 to 50000, limiting the tail first and giving the hours the rest returns the newest rows of the unlimited concatenation. |
| `TierTail.HoleExactlyWhen` | internal/api/metrics_tail.go:33-63 | For any other limit the rows are a newest run of the concatenation if and only if the tail has at most 10000 rows or there are no hour rows. |
| `TierTail.HoleSeen` | internal/api/metrics_tail.go:33-63 | A read without a limit over 10001 series of one bucket and an older hour returns the hour and leaves out a row of the newer bucket. |
| `SloCounts.CountBuckets` | internal/alert/slo_eval_counts.go:94-106 | The counting loop returns the counts from the resume point up to the close time or the first failure. |
| `SloCounts.CountedOnce` | internal/alert/slo_eval_counts.go:57-145 | Over every run of ticks with failures anywhere, buckets are stored in ascending order, so none twice, on whole minutes and with good at most total. |
| `SloCounts.TickIsBounded` | internal/alert/slo_eval_counts.go:50-113 | A tick stores at most 60 buckets, each ended at least the ingest lag ago. |
| `SloCounts.HoleExactlyWhen` | internal/alert/slo_eval_counts.go:57-113 | A tick breaks a gapless series if and only if it finds counting more than 60 buckets behind, can read the oldest bucket it still goes back to, and its insert succeeds. |
| `SloCounts.NoHolesExactlyWhen` | internal/alert/slo_eval_counts.go:57-113 | Over every run of ticks the stored series is gapless if and only if no tick of the run did so. |
| `SloCounts.ResumesAtFailure` | internal/alert/slo_eval_counts.go:67-113 | After a failure at a bucket the next tick starts there, unless it has fallen behind by then. |
| `LogsConsumer.StoreWithRetry` | cmd/spanbarn/store_retry.go:34-65 | The retry loop returns the verdict of its attempts, uses no attempt after it has ended and none fewer. |
| `LogsConsumer.TryingExactlyWhen` | cmd/spanbarn/store_retry.go:34-65 | The loop goes on if and only if nothing was inserted or panicked, no wait was cancelled and fewer than five failures were transient; a full disk never ends it. |
| `LogsConsumer.BatchesConserved` | cmd/spanbarn/consumers.go:48-100 | Over every run, each published batch is on the queue, on the processing list, or gone for a recorded reason. |
| `LogsConsumer.NoSilentLoss` | cmd/spanbarn/consumers.go:69-151 | A batch is gone only if its insert succeeded, the store panicked on it, exactly five transient inserts of it failed with no shutdown under way when that was decided, or its text did not parse; each at the step recorded. |
| `LogsConsumer.HeldStaysListed` | cmd/spanbarn/consumers.go:48-100 | While the consumer holds a batch it stays on the processing list, so no reclaim of its own returns it, and the inserts counted against it are exactly those tried since its claim. |
| `LogsConsumer.ProcessIsSteps` | cmd/spanbarn/consumers.go:69-85 | Processing a batch is the run of its tries, the decision and the acknowledgement. |
| `LogsConsumer.Process` | cmd/spanbarn/consumers.go:136-151 | A batch is acknowledged unless its retries failed during a shutdown; a failed acknowledgement leaves it listed. |
| `LogsConsumer.BatchQueue.Claim` | internal/queue/batch.go:81-94 | A claim moves the right end of the queue to the left end of the processing list. |
| `LogsConsumer.BatchQueue.Remove` | internal/queue/batch.go:120-125 | An acknowledgement removes one equal batch, the first. |
| `LogsConsumer.BatchQueue.MoveBack` | internal/queue/batch.go:137-155 | The reclaim loop moves batches back until the list is empty or a move fails; what it has moved stays moved. |
| `SessionTokens.OneGrantPerToken` | internal/api/sessions.go:272-361 | Over every interleaving of requests, flights, failures and logouts that loses no tokens of a successful grant, no access token is refreshed with success twice, however many requests hold it, even if the provider accepts replays. The single flight and the stale-token test are both needed. |
| `SessionTokens.OneGrantExactlyWhen` | internal/api/sessions.go:272-361 | Within the session's lifetime: a run loses no tokens if and only if no renewal tried after any part of it is a second success for some access token. |
| `SessionTokens.LostTokensGrantTwice` | internal/api/sessions.go:334-350 | After the first step that loses the tokens of a grant, the next renewal refreshes the same access token again. |
| `SessionTokens.NeverResent` | internal/api/sessions.go:272-361 | Over every interleaving in which no failed grant rotated, no save fails while the row is there and no delete after lost access fails, no refresh token the provider has rotated is sent in a grant. |
| `SessionTokens.DeadExactlyWhen` | internal/api/sessions.go:296-361 | A run avoids those three steps if and only if at no point of it the row holds a rotated token without a flight about to replace it. |
| `SessionTokens.ResentExactlyWhen` | internal/api/sessions.go:272-361 | Within the session's lifetime: a run avoids those three steps if and only if no renewal tried after any part of it sends a rotated token. |
| `SessionTokens.DeadIsResent` | internal/api/sessions.go:272-292 | After the first of those steps the next renewal sends the rotated token. |
| `SessionTokens.EveryWayHappens` | internal/api/sessions.go:309-350 | Each of the three steps is reached from login in every session that can be renewed. |
| `SessionTokens.FlightStep` | internal/api/sessions.go:272-292 | Every step keeps the flight acting for the token of the row it holds. |
| `SessionTokens.WinStep` | internal/api/sessions.go:272-361 | From a sound state a step leaves a granted access token in the row if and only if it loses the grant's tokens; any other step keeps the invariant. |
| `SessionTokens.LiveStep` | internal/api/sessions.go:296-361 | From a sound state a step leaves a rotated token in the row if and only if it is one of the three; any other step keeps the invariant. |
| `SessionTimes.GraceKept` | internal/api/sessions.go:163-194 | Over every run of writer and replicas that keeps its failure stamps, an expired access token is served on the writer no later than the first failure of the outage plus grace and on a replica no later than its expiry plus grace, rows handed over by a flight aside. |
| `SessionHandover.ServedInTime` | internal/api/sessions.go:163-194 | Over every run that keeps its failure stamps and hands no expired row over, nobody is served late: on the writer an expired token only within grace of the first failure, rows handed over by a flight included, on a replica only within grace of its expiry. |
| `SessionTimes.GraceExactlyWhen` | internal/api/sessions.go:163-194 | For a time within the session's life when its token has expired and graces begun in the run are over: the run keeps its failure stamps if and only if no outage at that time, after any part of it, serves a request past its grace. |
| `SessionTimes.LostStampOverruns` | internal/api/sessions.go:365-372 | After the first failure stamp that could not be stored, a later outage serves a request past the grace of the first failure. |
| `SessionHandover.HandedExactlyWhen` | internal/api/sessions.go:163-194 | Over every run: no request can be served an expired token as refreshed, after any part of it, if and only if no step makes a flight find another token that has expired, or store one, while somebody waits, and the clock passes the expiry of no row that has been handed out. |
| `SessionHandover.SourStep` | internal/api/sessions.go:272-361 | A step leaves some request with an expired row as its result, where none was, if and only if it is one of those. |
| `SessionTimes.NeverLoadedPastExpiry` | internal/api/sessions.go:197-212 | Over every run, whatever fails, a served session was loaded before its absolute expiry, and one served unexpired or on a replica is served before it, on a replica at most grace past access expiry. |
| `SessionTimes.ReplicaOnlyAnswers` | internal/api/sessions.go:229-234 | A request on a read-only replica changes nothing but its own answer, so it sends no grant, and is served if and only if the row is there, before absolute expiry and at most grace past access expiry. |
| `SessionTimes.TimeStep` | internal/api/sessions.go:163-372 | From a sound state a step makes the stored stamp disagree with the outage if and only if it loses the stamp of the first failure; any other step keeps the invariant. |
| `SessionTimes.LostStampRestartsGrace` | internal/api/sessions.go:365-372 | A run in which a lost stamp restarts the grace: served 900 seconds into an outage with 10 seconds of grace. |
| `SessionHandover.RefreshedElsewhereIsNotRechecked` | internal/api/sessions.go:272-292 | A run in which a row refreshed by another request is served 800 seconds after its own access token expired. |
| `SessionHandover.JoinedFlightReturnsOwnRow` | internal/api/sessions.go:272-292 | In every session: a request whose token has expired and that joins a flight started with some other token is served its own expired row as refreshed, with nothing sent to the provider. |
| `SessionExpiry.ExpiryExactlyWhen` | internal/api/sessions.go:163-361 | Over every run: nobody is served at or past the absolute expiry, after any part of the run carried on without waiting, if and only if the clock never passes the expiry while a request that wants to be served still can be: it holds a fresh result or one in grace, or waits for a flight that can end well, or can join or start one. |
| `SessionExpiry.HopeStaysLost` | internal/api/sessions.go:163-361 | Past the expiry, a state in which no request can be served stays one, whatever happens, and serves nobody. |
| `SessionExpiry.HopeIsMet` | internal/api/sessions.go:163-361 | A request that can be served is served at once by some continuation, which is produced. |
| `SessionExpiry.ServedPastAbsoluteExpiry` | internal/api/sessions.go:163-212 | A run in which a request that waited for its flight is served 50 seconds past the absolute expiry, which is looked at only when the row is loaded. |

## Left out

- CalcTheorem.LookupMeaning: SQL text is a list of lexemes, so the spelling of literals and names inside the database's own lexer, and the column affinity of comparisons, are not modelled.
- CalcTheorem.ToSqlValue: numbers are integers and reals without rounding or overflow; the engine's text conversion and comparison of text are parameters.
- CalcLexer.Scan: the conversion of a decimal literal to a floating-point number is a parameter.
- SessionTokens.NeverResent: one writer process that does not stop while a grant is under way, and a provider whose new tokens are new; a second writer or a crash between grant and save can leave a rotated token behind. The revocation call of a logout, which also carries the refresh token, is not a grant and not modelled.
- SessionHandover.ServedInTime: sessions of other login methods, which are never refreshed and only meet the absolute expiry, are not modelled.
- SpanRollups.RollupConservation: the histogram bin of a duration and the response code of a span are parameters of the configuration and the span; encoding of histograms is not modelled.
- SpanEdges.EdgeConservation: the calls found in a batch of spans are inputs.
- Aggregates.RowsAgree: percentiles are an unspecified function of a slot's durations and weights; they are recomputed per flush and do not add up across flushes.
- MetricOrder.OrderIndependent: sums are real numbers, so floating-point addition, which depends on order in its last bits, is not modelled.
- MetricFlush.PointsConserved: times past the range of a signed 64-bit nanosecond count are not modelled.
- RateLimits.ClientBound: token arithmetic is on reals, without floating-point rounding.
- TierTail.NewestOfBoth: the two queries are the store's contract (rows that start within the filter, the newest under the limit, oldest first).
- SloCounts.CountedOnce: the estimates behind a count are inputs, and deleting old counts is not modelled.
- LogsConsumer.NoSilentLoss: one writer at a time; the lists do not lose batches by themselves.
- The texts of error messages, log lines, traces and self-metrics.
- `Expr.Idents`, `Accumulator.QueryRecent`, session creation and logout, and the metrics consumer, which add only simple members.
- The filter language, the compactor, alert evaluation, retention, storage, HTTP, gRPC and OTLP handling, authentication, configuration and the user interfaces.
- What a database does to a row it already holds: rows written for one key are taken to add up, and an error that names rows to name exactly those that did not land.
