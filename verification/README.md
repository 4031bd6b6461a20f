# VT Code: verified models of its stateful and parsing core

A Dafny 4.11 project (`dafny verify dfyconfig.toml`) that models parts of the
VT Code terminal agent and of its maintenance scripts, and proves what they
promise over every input, every run and every interleaving.

- **MCP startup and turn output** (`McpStartup`, `McpStartupRuns`,
  `TurnCollector`, `TurnStreams`). The runtime tracks MCP servers that start up in rounds and
  summarises each round once, and it collects the text of one turn from an event
  stream it shares with other threads, turns, approvals and notifications. The
  tracker is a class whose fields are proved to be readings of the round's
  history; its methods implement a small protocol, `Advance`/`Emitted`, whose
  runs are then reasoned about. Interleaving independence, one summary per
  round, restart and staleness, and the projection of a stream onto one turn are
  theorems about whole runs; the outcome of a turn is stated for streams of the
  JSON events the server sends.
- **Print scanner for Rust sources** (`BlankingLexer`, `BlankingProperties`,
  `UnhashedRawStrings`, `BlankedRegions`, `LogScanner`). A five-mode lexer blanks comments and
  strings; a line scanner skips test code by counting braces. The lexer's loop is
  proved against a position-by-position definition, from which alignment,
  idempotence and resumption at any line break, in any mode, follow. What becomes
  of a whole string, comment or raw string is told from its characters alone.
- **Configuration reference generator** (`JsonPointer`, `SchemaMerge`,
  `SchemaNormalize`, `FieldTable`, `BoundedWalk`, `SchemaWalk`,
  `SchemaCoverage`). JSON pointers (section 4 of RFC 6901), an associative schema
  overlay, expansion of cyclic references with its termination measure, a
  depth-capped walk, and the table of fields it fills. The walk is proved to be
  bounded reachability, and its rows to be exactly those a path of properties,
  options, map values and array elements leads to.
- **Terminal palette probe** (`PaletteProbe`). Any number of starters and
  awaiters and the spawned worker, one atomic step at a time. A conservation
  invariant for the notification permit yields safety, no lost wakeup, the exact
  number of awaiters left waiting, and the configurations where that can happen.
- **Sandbox launcher protocol** (`SandboxLauncher`). The argument parser against
  an unambiguous grammar, and the round trip of what the sandbox manager prints.
- **Folds and ranks** (`Suggestions`, `Trajectory`, `Permissions`, `Percentile`),
  with `Names`, `Text`, `Sequences` and `Json` as common ground.

Methods and classes stand where the original loops and mutates; each is proved
against a specification function, and the theorems are about that function.
Where a promise does not hold of the code, the code is modelled as it is and the
exact condition under which the promise holds is proved:

| promise | holds exactly when | member |
|---|---|---|
| a startup round over an interleaving ends at its last event, not before | at no earlier point has every server expected or heard of answered, and every expected server takes part | `McpStartupRuns.FinishesEarlyIff`, `FinishesLastIff` |
| the probe's awaiters are always released (`src/agent/probe.rs:22-24`) | at most one of them looks at the flag before it is set; it can fail with a starter and two awaiters, and only then | `PaletteProbe.EveryoneReturnsIff`, `MayHangIff` |
| blanking keeps newlines | no string escapes one | `BlankingProperties.LineBreaksAligned` |
| the i-th blanked line belongs to the i-th source line | no string escapes a newline, and other line breaks stand in code | `LogScanner.LinesArePaired` |
| an unhashed raw string literal is blanked | its text is blanks and whole comments up to the closing quote, an opener that the quote ends, or a comment that runs over the quote | `UnhashedRawStrings.UnhashedLiteralIsBlanked` |
| an unhashed raw string literal is blanked, and code resumes behind it | its text is blanks and whole comments up to an unhashed opener that the quote completes | `UnhashedRawStrings.CodeResumesBehindUnhashedLiteral` |
| the braces of a test region are what is skipped | the header line leaves a brace open, or is the last line | `LogScanner.SkipsExactlyTheBraces` |
| a pointer resolves to what section 4 of RFC 6901 says it denotes | it is not the pointer to the whole document and does not reach a value through an array | `JsonPointer.ResolvesWhatItDenotes` |
| a normalised node has no `allOf` left | no chain of references that carries one comes back to itself | `SchemaNormalize.AllOfSurvives` |
| a score of 1 means names that are equal up to case and leading dashes (`src/main_helpers/bootstrap.rs:250-254`) | the bigrams do not overlap fully | `Suggestions.ScoreIsOneIff` |

## Model

| member | source | states |
|---|---|---|
| McpStartup.LastStatusMeaning | src/codex_app_server/runtime.rs:83 | the status a history gives a server is that of its last update, stated with positions |
| McpStartup.SortDedupChangesNothing | src/codex_app_server/runtime.rs:133-136 | sorting and deduplicating a strictly sorted list is the identity |
| McpStartup.ExpectedNamesMeaning | src/codex_app_server/runtime.rs:159-171 | the names are those expected or reported in the round, and absent only with no expected set and an empty round |
| McpStartup.SummaryTextsOf | src/codex_app_server/runtime.rs:139-149 | the texts name the servers not initialised, then those failed, each only if there are any |
| McpStartup.SummaryNames | src/codex_app_server/runtime.rs:119-131 | at the end of a round the interrupted are exactly the participants without a status, Starting or Cancelled, and the failed exactly those whose last status is Failed |
| McpStartup.SummaryWording | src/codex_app_server/runtime.rs:139-149 | the two texts written out: `MCP startup interrupted. …` lists the interrupted and `MCP startup incomplete (failed: …)` the failed, each only if there are any |
| McpStartup.WarningWording | src/codex_app_server/runtime.rs:76-81 | a server's first failure in a round gives its reported error as the text, and nothing else does |
| McpStartup.Tracker.constructor | src/codex_app_server/runtime.rs:54-62 | a new tracker is valid and in the fresh phase, expecting the set of the given names |
| McpStartup.Tracker.RecordUpdate | src/codex_app_server/runtime.rs:64-88 | every field stays the reading of the round's history (last status, servers failed at least once, something started), the phase advances as the protocol says, the texts returned are those of the first-failure warning and then of the summary if the round settles; stale updates change no field |
| McpStartup.Tracker.FinishAfterLag | src/codex_app_server/runtime.rs:90-95 | a lag finishes an open nonempty round with its summary and otherwise does nothing |
| McpStartup.Tracker.ShouldFinishRoundMeaning | src/codex_app_server/runtime.rs:97-117 | the chain of guards holds exactly if the round is open, something has started, and every expected or reported server's last status is terminal |
| McpStartup.Tracker.FinishRoundSummary | src/codex_app_server/runtime.rs:119-150 | the texts name, sorted and joined, the participants not initialised and then those failed, each only if there are any, and the round is finished |
| McpStartup.Tracker.ClassifyServers | src/codex_app_server/runtime.rs:120-136 | both lists come out strictly sorted, so sort and dedup change nothing, and they hold the interrupted and the failed participants |
| McpStartup.Tracker.Classify | src/codex_app_server/runtime.rs:124-130 | a server is appended to the list its status calls for, if any |
| McpStartup.Tracker.ResetRound | src/codex_app_server/runtime.rs:152-157 | a reset leaves an empty, open, valid round |
| McpStartup.LagOutput | src/codex_app_server/runtime.rs:90-95 | a lag in an open nonempty round closes it with its summary, and says and changes nothing otherwise |
| McpStartupRuns.FinalSnoc | src/codex_app_server/runtime.rs:64-95 | feeding one more event advances the final phase and appends that event's output |
| McpStartupRuns.OpenRoundsHaveNotSettled | src/codex_app_server/runtime.rs:84-117 | in every run an unfinished tracker never satisfies the finish condition, and a finished one has seen an update |
| McpStartupRuns.RoundIsAStretchOfTheRun | src/codex_app_server/runtime.rs:64-95 | in every run the round's history is one contiguous stretch of the reported updates, from the last reset up to the finish, and whatever came after the finish was stale |
| McpStartupRuns.OneSummaryPerRound | src/codex_app_server/runtime.rs:64-95 | over every run, summaries computed are rounds reset plus one if finished |
| McpStartupRuns.NothingStarted | src/codex_app_server/runtime.rs:97-117 | a round in which nothing has reported Starting stays open, whatever else is reported |
| McpStartupRuns.WarnedOncePerRound | src/codex_app_server/runtime.rs:76-81 | in every round each server is warned about exactly once if it failed at all, otherwise never |
| McpStartupRuns.RestartForgets | src/codex_app_server/runtime.rs:65-74 | from a Starting update on, a finished tracker has the phases and messages of a fresh one, for every continuation |
| McpStartupRuns.StaleUpdatesChangeNothing | src/codex_app_server/runtime.rs:65-68 | after a finish any sequence of lags and of updates other than Starting leaves the phase as it is and says nothing |
| McpStartupRuns.SummaryPartitions | src/codex_app_server/runtime.rs:123-131 | ready, failed and interrupted split the expected and reported servers; a finish reached by an update interrupts cancelled servers only |
| McpStartupRuns.InterleavingSummary | src/codex_app_server/runtime.rs:119-150 | at the end of any interleaving the summary is a function of the servers' outcomes alone |
| McpStartupRuns.InterleavingStep | src/codex_app_server/runtime.rs:64-117 | at each step of an interleaving the round is open, it is summarised at the last step only, and the output is the warning plus, there, the outcome summary |
| McpStartupRuns.InterleavingIndependence | src/codex_app_server/runtime.rs:64-150 | if the expected set is exactly the servers that take part, any interleaving of their Starting-then-terminal sequences finishes at its last event, not before, with the summary their outcomes determine |
| McpStartupRuns.FirstFinishIff | src/codex_app_server/runtime.rs:97-117 | for every expected set, known or not, an interleaving first finishes its round at the first point where every server expected or heard of has answered, and nowhere if there is none |
| McpStartupRuns.FinishesEarlyIff | src/codex_app_server/runtime.rs:97-117 | for every expected set an interleaving finishes before its end if and only if at some earlier point every server heard of, and every member of a known expected set, has answered |
| McpStartupRuns.FinishesLastIff | src/codex_app_server/runtime.rs:97-117 | one that does not finish early finishes at its last event if and only if every expected server takes part |
| McpStartupRuns.EarlyFinishExample | src/codex_app_server/runtime.rs:97-117 | two servers that answer one after the other are such a case, with an expected set that is absent, empty, or leaves the second one out |
| TurnCollector.TopicsAreNames | src/codex_app_server/runtime.rs:632-663 | the dispatch tells exactly the known method names apart, and keeps every other name |
| TurnCollector.NotificationRoundTrip | src/codex_app_server/runtime.rs:754-776 | a notification in either spelling is read back as the update it reports, and is read only without an id and under its own method |
| TurnCollector.HandleStartupNotification | src/codex_app_server/runtime.rs:740-746 | exactly the notifications that parse are fed to the tracker; the tracker's phase and messages are those of the extended event sequence |
| TurnCollector.ReadTurnEvent | src/codex_app_server/runtime.rs:632-664 | the dispatch on the method adds the delta and ends the turn as the declarative reading of the event says |
| TurnCollector.TakeItem | src/codex_app_server/runtime.rs:609-664 | one pass of the loop: delta, answer, tracker output and end of turn are the readings of the item, requests and notifications never reaching the dispatch |
| TurnCollector.CollectTurnOutput | src/codex_app_server/runtime.rs:598-666 | the outcome is that of the first ending item, success being the right-trimmed concatenation of the deltas before it; answers, tracker phase and warning texts are those of the items before it, in order |
| TurnCollector.TurnProjection | src/codex_app_server/runtime.rs:621-664 | dropping any selection of other threads' events, other turns' deltas, completions and requests, MCP notifications, lags and accepted steering changes neither outcome nor answers |
| TurnCollector.AnswersAreTheRequests | src/codex_app_server/runtime.rs:621-626 | up to the end of the turn every matching request is answered once, in order, under its own id |
| TurnStreams.ActRead | src/codex_app_server/runtime.rs:609-664 | each JSON event of the server, written out, is read as the text it says, the answer it gets, the tracker update it carries and the end of the turn it makes |
| TurnStreams.UnexplainedFailure | src/codex_app_server/runtime.rs:754-776 | a failure without a reason names its server, and only the eight words for a status are read |
| TurnStreams.StreamOutcome | src/codex_app_server/runtime.rs:598-666 | for every stream of such events, with any other events in between: `completed` yields the right-trimmed concatenation of what was said in the turn, any other or absent status, an `error`, a failed approval or a closed steering yields its own failure with its message, and answers and tracker updates are those before it, in order |
| TurnStreams.StreamLost | src/codex_app_server/runtime.rs:829-831 | a stream without such an event is a lost connection |
| BlankingLexer.RawPrefixLength | scripts/check_structured_logging.py:133-140 | a positive length is that of a stem, all the hashes after it, and a quote |
| BlankingLexer.DelimiterMeaning | scripts/check_structured_logging.py:205-212 | the recorded closing delimiter is the opener's run of hashes, with a stray `b` exactly for the stem `rb` |
| BlankingLexer.ClosesMeaning | scripts/check_structured_logging.py:193 | a quote followed by the recorded text is a quote followed by at least as many hashes, behind the stray `b` if there is one |
| BlankingLexer.StripToken | scripts/check_structured_logging.py:151-236 | one pass of the loop appends what the token at that position leaves and updates the flags to the mode behind it |
| BlankingLexer.StripNonCode | scripts/check_structured_logging.py:143-238 | the loop computes the position-by-position blanking |
| BlankingProperties.NewlinesSurvive | scripts/check_structured_logging.py:155-236 | a newline stands in the output exactly where one stands in the source that is not the second character of an escape in a string |
| BlankingProperties.LineBreaksAligned | scripts/check_structured_logging.py:179-183 | newlines keep their places exactly when no string escapes one |
| BlankingProperties.EscapedBreakExample | scripts/check_structured_logging.py:179-183 | a string that holds a backslash and a newline is blanked to spaces throughout |
| BlankingProperties.BlankedIsOpenerFree | scripts/check_structured_logging.py:143-238 | from any mode the output holds no quote, `//` or `/*` |
| BlankingProperties.FixedExactlyWhenOpenerFree | scripts/check_structured_logging.py:143-238 | blanking is the identity exactly on texts without those |
| BlankingProperties.BlankingIsIdempotent | scripts/check_structured_logging.py:143-238 | the output has the source's length, is free of openers, and is a fixed point |
| BlankingProperties.Resumption | scripts/check_structured_logging.py:133-238 | after any line, in any mode, blanking can stop and resume from the mode reached, whatever follows; modes compose likewise |
| BlankingProperties.ResumptionInCode | scripts/check_structured_logging.py:133-238 | after a prefix that ends a line in code mode the rest is blanked as if it stood alone |
| BlankingProperties.RawStringOpens | scripts/check_structured_logging.py:192-215 | an opener enters raw mode if and only if it has a hash or the stem `rb`; otherwise the script stays in code |
| BlankingProperties.RawStringIsBlanked | scripts/check_structured_logging.py:192-215 | a raw string with hashes is blanked up to the first quote followed by as many hashes, newlines kept, and code resumes there |
| BlankedRegions.StringIsBlanked | scripts/check_structured_logging.py:179-190 | a string is blanked up to the first quote that an even run of backslashes precedes, unescaped newlines apart, and code resumes there |
| BlankedRegions.StringExample | scripts/check_structured_logging.py:184-186 | `"a";` becomes blanks and the semicolon |
| BlankedRegions.EscapedQuoteExample | scripts/check_structured_logging.py:179-186 | so does a string that holds an escaped quote |
| BlankedRegions.LineCommentIsBlanked | scripts/check_structured_logging.py:155-162 | a line comment is blanked up to the end of its line, and code resumes behind it |
| BlankedRegions.BlockCommentIsBlanked | scripts/check_structured_logging.py:164-177 | a block comment with whole comments nested inside is blanked, newlines apart, up to the end that matches its start, and code resumes there |
| BlankedRegions.RawPrefixIff | scripts/check_structured_logging.py:133-140 | an opener of n characters is recognised if and only if `br`, `rb` or `r`, at most 255 hashes and a quote stand there and do not continue a word |
| UnhashedRawStrings.UnhashedLiteralIsBlanked | scripts/check_structured_logging.py:203-236 | an unhashed `r` or `br` literal is blanked if and only if its text is spaces, newlines and whole comments up to the closing quote, an opener that the quote ends, or a comment that runs over the quote |
| UnhashedRawStrings.CodeResumesBehindUnhashedLiteral | scripts/check_structured_logging.py:203-236 | it is blanked, and code resumes behind it, if and only if the text ends in an unhashed opener that the quote completes |
| UnhashedRawStrings.PlainLiteralStaysVisible | scripts/check_structured_logging.py:203-236 | if the text of such a literal opens nothing, it stays visible and the closing quote opens a string |
| UnhashedRawStrings.PlainLiteralExample | scripts/check_structured_logging.py:203-236 | `r"p"` shows its `p` and leaves a string open |
| UnhashedRawStrings.BlankLiteralExample | scripts/check_structured_logging.py:203-236 | `r" r"` is blanked and leaves code behind it |
| UnhashedRawStrings.OpenLiteralExample | scripts/check_structured_logging.py:203-236 | `r" "` is blanked and leaves a string open behind it |
| LogScanner.LinesArePaired | scripts/check_structured_logging.py:246-259 | blanked and source lines correspond in number and length exactly when no string escapes a newline and every other character that breaks a line stands in code |
| LogScanner.ReadLine | scripts/check_structured_logging.py:275-310 | the sequential flag updates and early exits decide header, kind and pending flags as the declarative conditions do |
| LogScanner.HeaderIff | scripts/check_structured_logging.py:275-304 | a line heads a region if and only if it names a tests module, or is a module under a test cfg, or a function under a test cfg or attribute: one that stands on the line or on an earlier one with no other header since, and for a cfg nothing but blanks and attributes since |
| LogScanner.PendingMeaning | scripts/check_structured_logging.py:275-307 | the pending flags carried to a line mean exactly that |
| LogScanner.DeltaMeaning | scripts/check_structured_logging.py:260 | the brace count adds over concatenation and is 1, -1 and 0 for single characters |
| LogScanner.LineThenRest | scripts/check_structured_logging.py:247-248 | splitting takes the text up to a line break as the first line and leaves no empty last line |
| LogScanner.RegionIsShortest | scripts/check_structured_logging.py:263-273 | a skipped region is the shortest nonempty run of lines that brings the depth to zero or less, or all the rest |
| LogScanner.SkipsExactlyTheBraces | scripts/check_structured_logging.py:260-288 | the region is where the header's braces balance if and only if the header leaves a brace open or is the last line |
| LogScanner.FindingsIncrease | scripts/check_structured_logging.py:258-312 | findings are strictly increasing in line number and within the file |
| LogScanner.FindingsQuote | scripts/check_structured_logging.py:309-310 | each finding quotes its own source line without white space around it |
| LogScanner.StripMeaning | scripts/check_structured_logging.py:310 | stripping takes white space, and nothing else, from both ends |
| LogScanner.StripEnds | scripts/check_structured_logging.py:310 | what is left neither starts nor ends with white space |
| LogScanner.ScanLine | scripts/check_structured_logging.py:258-310 | one pass with its region counters agrees with jumping to the region's end |
| LogScanner.ScanLines | scripts/check_structured_logging.py:258-312 | the loop's findings are those of the jumping specification, missing blanked lines counting as empty |
| LogScanner.ScanFile | scripts/check_structured_logging.py:241-312 | the findings of a file are those of its lines paired with its blanked lines |
| LogScanner.RegionReportsNothing | scripts/check_structured_logging.py:263-304 | from a header on nothing is reported up to its region's end, and scanning goes on there with the flags from before the header minus the cfg flag, and minus the test flag behind a test function |
| LogScanner.CoveredIff | scripts/check_structured_logging.py:258-304 | a line lies in the region of some header read outside every region if and only if it is not read outside every region itself, or heads one |
| LogScanner.FoundIff | scripts/check_structured_logging.py:258-312 | a line is reported if and only if no region covers it, it holds a print and it is not allowed to |
| LogScanner.OneLineModuleHidesTheNext | scripts/check_structured_logging.py:263-282 | wherever the scan comes upon a test module closed on its own line, neither that line nor the next is reported, whatever the next is |
| LogScanner.SwallowedPrint | scripts/check_structured_logging.py:263-310 | the print on the line after `mod tests {}` is not found, and alone it is |
| JsonPointer.DecodeEncode | scripts/generate_config_field_reference.py:84-85 | decoding undoes the escaping of RFC 6901 for every text |
| JsonPointer.EncodeDecode | scripts/generate_config_field_reference.py:84-85 | escaping undoes decoding exactly on well-escaped segments |
| JsonPointer.SwappedOrderFails | scripts/generate_config_field_reference.py:85 | replacing `~0` first loses a text exactly if it contains `~1` |
| JsonPointer.SplitJoin | scripts/generate_config_field_reference.py:92 | splitting undoes joining for parts without a slash, empty parts included |
| JsonPointer.PointerRoundTrip | scripts/generate_config_field_reference.py:88-93 | every nonempty path is read back from its pointer |
| JsonPointer.FollowEvaluates | scripts/generate_config_field_reference.py:91-95 | following member names agrees with evaluation by section 4 of RFC 6901, array indices included, unless evaluation succeeds through an array |
| JsonPointer.ResolvesWhatItDenotes | scripts/generate_config_field_reference.py:88-95 | the pointer to a path resolves to what RFC 6901 evaluation of the path gives if and only if the path is nonempty and that evaluation does not succeed through an array |
| JsonPointer.ElementIsNotResolved | scripts/generate_config_field_reference.py:93-94 | `#/a/0` denotes the element of a one-element array and is not resolved |
| JsonPointer.ResolvesFragmentsOnly | scripts/generate_config_field_reference.py:88-95 | only texts that start with `#/` resolve, each to what its decoded parts lead to |
| JsonPointer.ResolvePointer | scripts/generate_config_field_reference.py:88-95 | the loop over segments follows the decoded path, failing where a step is missing |
| SchemaMerge.MergeLookup | scripts/generate_config_field_reference.py:102-117 | a merge has, for every key, the combined value of both sides |
| SchemaMerge.RequiredIsTheUnion | scripts/generate_config_field_reference.py:107-111 | the merged `required` lists the names of both sides |
| SchemaMerge.PropertiesAreMerged | scripts/generate_config_field_reference.py:112-115 | the merged `properties` have exactly the names of both sides, with the overlay's value where it has one and the base's otherwise |
| SchemaMerge.MergeAssociates | scripts/generate_config_field_reference.py:102-117 | overlaying is associative, failures included |
| SchemaMerge.MergeSchema | scripts/generate_config_field_reference.py:102-117 | the loop, in whatever order the entries come, computes the merge, and fails where a `required` or `properties` to be combined is no name list or object |
| SchemaNormalize.UnfoldShrinks | scripts/generate_config_field_reference.py:127-134 | the reference loop leaves no `$ref`, and either changes nothing or has fewer references left to push |
| SchemaNormalize.MembersFuel | scripts/generate_config_field_reference.py:136-140 | an `allOf` is expanded with fewer references left, or is part of the node itself: the measure that ends every expansion |
| SchemaNormalize.NoReferenceOnTop | scripts/generate_config_field_reference.py:120-144 | a normalised node never has a `$ref` on top |
| SchemaNormalize.UnfoldCommutes | scripts/generate_config_field_reference.py:127-134 | expanding references and then overlaying equals overlaying and then expanding |
| SchemaNormalize.ReferenceIsInheritance | scripts/generate_config_field_reference.py:127-134 | a reference means its target's expansion with the node laid on top |
| SchemaNormalize.OwnKeysWin | scripts/generate_config_field_reference.py:127-134 | through any chain of references, before `allOf` is folded in, a node's own keys survive, extended only where names or members are combined |
| SchemaNormalize.UnfoldFollowsChain | scripts/generate_config_field_reference.py:127-134 | the loop cuts if and only if the chain of raw references comes back to one of them, and every uncombined key has the value of the first object on the chain that has it |
| SchemaNormalize.ChainFuel | scripts/generate_config_field_reference.py:127-140 | what the chain has for a key is expanded with fewer references left, or is part of the node |
| SchemaNormalize.AllOfSurvives | scripts/generate_config_field_reference.py:127-144 | an `allOf` is left on top if and only if, at the node or down the members of its `allOf`, a chain of references that carries an `allOf` comes back to one of them |
| SchemaNormalize.SelfReferenceKeepsAllOf | scripts/generate_config_field_reference.py:129-131 | a definition that refers to itself and has an `allOf` is such a case |
| SchemaNormalize.NormalizedKey | scripts/generate_config_field_reference.py:120-144 | for a key that is not combined a normalised node has what the last `allOf` member that has it says, and otherwise what the first object on its chain of references says |
| SchemaNormalize.NormalizedReading | scripts/generate_config_field_reference.py:120-144 | whatever reading of a schema respects overlaying, normalisation commutes with it: it is joined along the chain of references, then over the `allOf` members in order |
| SchemaNormalize.NormalizedProperty | scripts/generate_config_field_reference.py:112-144 | each single property is that of the last `allOf` member that has it, else of the first object on the chain of references |
| SchemaNormalize.NormalizedRequired | scripts/generate_config_field_reference.py:107-144 | the names required are those required anywhere on the chain or by a member of `allOf` |
| SchemaNormalize.MembersAddProperties | scripts/generate_config_field_reference.py:139-142 | a node with property `a` and a member with property `b` has both |
| SchemaNormalize.MembersOverride | scripts/generate_config_field_reference.py:139-142 | a member of `allOf` overrides what the node itself says |
| SchemaNormalize.ExpandReferences | scripts/generate_config_field_reference.py:127-134 | the rebinding loop computes the expansion and ends on every document, cyclic ones included |
| SchemaNormalize.NormalizeSchemaNode | scripts/generate_config_field_reference.py:120-144 | the function computes the normalisation, with an explicit failure for what cannot be resolved or merged |
| SchemaNormalize.MergeMembers | scripts/generate_config_field_reference.py:139-142 | the loop over `allOf` folds the normalised members onto the base, failing with the first that fails |
| FieldTable.FirstValueMeaning | scripts/generate_config_field_reference.py:233-241 | a path's text is that of the first of its entries that has one, stated with positions |
| FieldTable.SummarySnoc | scripts/generate_config_field_reference.py:227-248 | one more entry changes the summary of its own path only, by OR of required and first known value |
| FieldTable.Table.Upsert | scripts/generate_config_field_reference.py:227-248 | after every upsert each visited path, and no other, holds the summary of its history |
| FieldTable.Table.Entries | scripts/generate_config_field_reference.py:351-353 | the entries list the visited nonempty paths, each once, strictly increasing, with their summaries |
| FieldTable.RowIsListed | scripts/generate_config_field_reference.py:351-353 | every row with a nonempty path has an entry, required if the row is |
| BoundedWalk.VisitsAreTheReachable | scripts/generate_config_field_reference.py:252-348 | a walk that raises nothing records exactly the rows at the end of a chain shorter than its limit |
| BoundedWalk.CapIsInvisible | scripts/generate_config_field_reference.py:250-263 | a depth cap that turns no node away gives what any larger one gives, rows, order and failure |
| SchemaWalk.Walk | scripts/generate_config_field_reference.py:259-348 | a call adds to the table's history exactly the rows of the walk specification, in order, or raises exactly where that fails |
| SchemaWalk.WalkNode | scripts/generate_config_field_reference.py:273-348 | the branch on the node's shape records the node's layout |
| SchemaWalk.WalkUnion | scripts/generate_config_field_reference.py:273-293 | a union records itself, then the properties of each of its branches |
| SchemaWalk.CollectBranches | scripts/generate_config_field_reference.py:285-290 | the branches are the node, if it has properties, and its object options under `oneOf`, then `anyOf` |
| SchemaWalk.CollectOptions | scripts/generate_config_field_reference.py:286-290 | the options are normalised in order and kept if they are objects; one that cannot be normalised fails all |
| SchemaWalk.WalkBranches | scripts/generate_config_field_reference.py:291-292 | the branches' rows follow one another, and the first failure ends the walk |
| SchemaWalk.WalkProperties | scripts/generate_config_field_reference.py:252-257 | the properties are walked in increasing order of name with their required flags |
| SchemaWalk.WalkObject | scripts/generate_config_field_reference.py:295-323 | an object records itself only without properties, then its properties, then its map values |
| SchemaWalk.WalkAdditional | scripts/generate_config_field_reference.py:309-322 | map values are walked under `.*` if they have a schema, and are one row if any value will do and the path is not empty |
| SchemaWalk.WalkLeaf | scripts/generate_config_field_reference.py:325-348 | any other node records itself, an array then its items under `[]` |
| SchemaWalk.CollectFields | scripts/generate_config_field_reference.py:224-353 | the entries list the rows of the walk from the root, or the walk raises |
| SchemaWalk.TableMeaning | scripts/generate_config_field_reference.py:224-353 | a nonempty path is documented if and only if a chain of at most 32 steps leads to it, and as required if and only if some such chain ends in a required field |
| SchemaWalk.SelfMembersLeaveNoRow | scripts/generate_config_field_reference.py:250-263 | a definition whose one property is itself is never documented, whatever the cap |
| SchemaCoverage.RowsExtendTheirPlace | scripts/generate_config_field_reference.py:252-348 | every row recorded below a place continues the place's path with `.` or `[]` segments |
| SchemaCoverage.RecordedIff | scripts/generate_config_field_reference.py:252-348 | a walk that raises nothing records exactly the rows that fewer steps than its limit lead to, a step entering a property, a property of an object option under `oneOf` or `anyOf`, a map's values or an array's elements |
| SchemaCoverage.BareIsNormal | scripts/generate_config_field_reference.py:120-144 | a node without references and `allOf` is its own normal form |
| SchemaCoverage.OwnRowFirst | scripts/generate_config_field_reference.py:273-348 | a node's own row is recorded before anything below it |
| SchemaCoverage.PropertyOrder | scripts/generate_config_field_reference.py:252-257 | properties are entered in increasing order of name |
| SchemaCoverage.LeavesAreDocumented | scripts/generate_config_field_reference.py:252-348 | a node that records itself, at most 32 steps down through properties, options, map values and array elements, has a row with its dotted path, its parent's flag (false behind `[]` and `.*`) and its own type, default and description, and a table entry that is required if the row is |
| PaletteProbe.StepKeepsInv | src/agent/probe.rs:38-106 | every step keeps: one worker per successful swap, the flag tells whether the guard has run, each notification is a stored permit or was taken by one awaiter |
| PaletteProbe.RunKeepsInv | src/agent/probe.rs:38-106 | every state of every run satisfies it |
| PaletteProbe.SafeReturns | src/agent/probe.rs:47-106 | in every run at most one worker is spawned, and an awaiter that saw the probe started has returned only after the flag is set |
| PaletteProbe.CallsAreKept | src/agent/probe.rs:73-91 | in every run only a call that may probe for itself has, and only one that may not has returned without a probe |
| PaletteProbe.NothingStarted | src/agent/probe.rs:73-91 | if nothing was started, at the end every `await` has probed for itself and every `finish` has returned without |
| PaletteProbe.CommittedAreLateChecks | src/agent/probe.rs:93-106 | in every run the awaiters that have asked for the notification number the checks taken before the flag was set |
| PaletteProbe.NoLostWakeup | src/agent/probe.rs:56-61 | once the notification is out nobody is blocked, as long as at most one awaiter looked at the flag before it was set |
| PaletteProbe.TerminalShape | src/agent/probe.rs:47-106 | where no step is possible, starters and worker are done and each awaiter has returned or is blocked |
| PaletteProbe.StuckAwaiters | src/agent/probe.rs:93-106 | there, all but one of the awaiters that asked are blocked |
| PaletteProbe.EveryoneReturnsIff | src/agent/probe.rs:67-106 | a run that can go no further has released everybody if and only if at most one check in it was taken before the flag was set |
| PaletteProbe.OneAtATimeChecks | src/agent/probe.rs:73-106 | with one awaiter waiting at a time at most one check is taken before the flag is set |
| PaletteProbe.SuccessiveAwaitersReturn | src/agent/probe.rs:67-106 | with one awaiter waiting at a time every run that goes as far as it can releases every awaiter, panic or not |
| PaletteProbe.StepLowersRank | src/agent/probe.rs:38-106 | every step lowers a rank |
| PaletteProbe.RunsAreBounded | src/agent/probe.rs:38-106 | every run ends after a number of steps bounded by the number of callers |
| PaletteProbe.OverlappingAwaitersHang | src/agent/probe.rs:93-106 | from any start with a starter and two awaiters some run that goes as far as it can leaves one of them waiting |
| PaletteProbe.MayHangIff | src/agent/probe.rs:38-106 | an awaiter can be left waiting if and only if there is a starter and there are at least two awaiters |
| SandboxLauncher.ReadsExactly | src/cli/sandbox_exec.rs:68-112 | reading stops with given settings and reason if and only if the tokens are those settings, printed, up to a place that gives that reason |
| SandboxLauncher.NextSetting | src/cli/sandbox_exec.rs:74-111 | one flag token takes its inline value or the next token, or stops with the error its text calls for |
| SandboxLauncher.ParseProtocolArgs | src/cli/sandbox_exec.rs:61-124 | the loop returns what the reading of the tokens describes: the error it stopped with, the first missing part, or the record |
| SandboxLauncher.ParsesExactlyTheGrammar | src/cli/sandbox_exec.rs:61-124 | parsing returns a record if and only if the tokens print settings, in any order and form, that are complete and whose last values are that record's, with its nonempty command |
| SandboxLauncher.LastValueMeaning | src/cli/sandbox_exec.rs:68-112 | a flag's value is that of its last setting, stated with positions |
| SandboxLauncher.Refusals | src/cli/sandbox_exec.rs:68-122 | every refusal: the error reading stopped with, a missing command, or the first of policy cwd, policy and limits that is missing |
| SandboxLauncher.RoundTrip | src/cli/sandbox_exec.rs:61-124 | printing complete settings and any nonempty command, then parsing, gives the record back, whatever the values contain |
| SandboxLauncher.Unambiguous | src/cli/sandbox_exec.rs:68-112 | the tokens determine settings and command |
| SandboxLauncher.ManagerRoundTrip | crates/codegen/vtcode-safety/src/sandboxing/manager.rs:266-281 | what the sandbox manager writes the launcher reads back, for all values, programs and arguments |
| Suggestions.ScoreRange | src/main_helpers/bootstrap.rs:255-306 | every score lies between 0 and 1 |
| Suggestions.NormalMeaning | src/main_helpers/bootstrap.rs:261 | leading dashes are dropped and ASCII capitals lowered |
| Suggestions.KindsOfMatch | src/main_helpers/bootstrap.rs:267-285 | a prefix either way scores in [0.8, 0.95) or [0.7, 0.95), containment 0.6 or 0.55, and each is eligible |
| Suggestions.LongerPrefixScoresHigher | src/main_helpers/bootstrap.rs:267-271 | of two prefixes of a candidate the longer scores higher |
| Suggestions.PrefixScore | src/main_helpers/bootstrap.rs:267-271 | a proper prefix of a dash-trimmed candidate, whatever its case, scores in [0.8, 0.95) and is eligible |
| Suggestions.OverlapRange | src/main_helpers/bootstrap.rs:291-306 | the bigram overlap lies between 0 and 1, and is 1 if and only if all the candidate's bigrams occur and outnumber the input's distinct ones or equal them |
| Suggestions.MatchesAreOccurrences | src/main_helpers/bootstrap.rs:291-306 | the matches are the places of the candidate whose bigram the input has |
| Suggestions.OverlapEligibleIff | src/main_helpers/bootstrap.rs:286-316 | without containment a candidate is eligible if and only if at least half, and not all, of the larger number of bigrams match |
| Suggestions.ScoreIsOneIff | src/main_helpers/bootstrap.rs:250-289 | the score is 1 if and only if the names are the same or the overlap is full |
| Suggestions.FullOverlapExample | src/main_helpers/bootstrap.rs:291-306 | `aba` and `bab` score 1 |
| Suggestions.SortByScore | src/main_helpers/bootstrap.rs:319 | the sorted list has the same members, by descending score, ties in input order |
| Suggestions.SuggestSimilarCommands | src/main_helpers/bootstrap.rs:310-323 | the result is the first n of the ranking of all eligible candidates |
| Suggestions.RankingUnique | src/main_helpers/bootstrap.rs:313-320 | there is only one ranking |
| Suggestions.RankingOrder | src/main_helpers/bootstrap.rs:319 | suggestions come by descending score, equal ones in the order of the candidates |
| Suggestions.NothingBetterIsOmitted | src/main_helpers/bootstrap.rs:313-320 | an eligible candidate is omitted only if n others rank before it |
| Trajectory.TallyConserved | src/cli/trajectory.rs:123-137 | a tally's counts add up to the lines it counts |
| Trajectory.RouteCounts | src/cli/trajectory.rs:123-128 | one more route adds one to its class and to its model and leaves every other count |
| Trajectory.ToolCounts | src/cli/trajectory.rs:129-137 | one more tool call adds one to its name's ok or error count, as it ended, and leaves every other count |
| Trajectory.EveryRecordStamped | src/cli/trajectory.rs:123-192 | timestamps number the records of the four kinds |
| Trajectory.RecordTotals | src/cli/trajectory.rs:123-193 | one more record raises the total of its own kind only and appends its own timestamp |
| Trajectory.Conservation | src/cli/trajectory.rs:112-199 | classes and models each sum to the routes, ok and err to the tool calls, timestamps to the four totals |
| Trajectory.PromptStep | src/cli/trajectory.rs:138-154 | updating one model's entry keeps every model's token sums those of exactly its own records |
| Trajectory.PromptSums | src/cli/trajectory.rs:146-151 | a model's entry is the sums of its records' tokens, cached tokens standing in for absent read tokens and 0 for absent creation tokens, and their number |
| Trajectory.ChurnStep | src/cli/trajectory.rs:166-174 | updating one model's entry keeps every model's churn counts those of exactly its own reasons |
| Trajectory.ChurnReasons | src/cli/trajectory.rs:166-174 | each counter is the number of records with its own reason |
| Trajectory.OrderStep | src/cli/trajectory.rs:175-190 | updating one model's entry keeps snapshots, adjacent order changes, last snapshot and skill count those of its own snapshots |
| Trajectory.ChangesMeaning | src/cli/trajectory.rs:177-181 | order changes are the snapshots whose order differs from the one before |
| Trajectory.SnapshotRecord | src/cli/trajectory.rs:175-190 | one more snapshot becomes its model's last, is counted once, and leaves other models' entries |
| Trajectory.Tally | src/cli/trajectory.rs:123-135 | one line's bumps keep all four tallies and touch nothing else |
| Trajectory.Total | src/cli/trajectory.rs:123-193 | one line's totals and timestamp, touching nothing else |
| Trajectory.Tabulate | src/cli/trajectory.rs:138-190 | one line's per-model updates keep all three tables and touch nothing else |
| Trajectory.SummarizeTrajectory | src/cli/trajectory.rs:112-199 | the summary of a log: every table is the reading of the log it should be, and the totals are conserved |
| Trajectory.OwnRecordsOnly | src/cli/trajectory.rs:138-190 | dropping every other line keeps the records a model's statistics are computed from |
| Trajectory.EntriesDependOnOwnRecords | src/cli/trajectory.rs:112-199 | two summaries whose logs have the same records of a model have equal entries for it in all three tables |
| Permissions.CommaSeparates | src/startup/validation.rs:24-30 | `a,b` as one argument means `a` and `b` as two |
| Permissions.SingleEntry | src/startup/validation.rs:24-30 | a value without a comma is one entry, trimmed, or none if blank |
| Text.TrimMeaning | src/startup/validation.rs:28 | trimming takes white space, and nothing else, from both ends, and leaves none there |
| Permissions.EntriesAreClean | src/startup/validation.rs:24-30 | no entry is blank, holds a comma, or has white space at an end |
| Permissions.MergedMembers | src/startup/validation.rs:32-36 | the merged list has the members of both and adds nothing twice |
| Permissions.MergedIsIdempotent | src/startup/validation.rs:10-36 | merging the same entries again adds nothing |
| Permissions.PushUnique | src/startup/validation.rs:32-36 | an entry is appended unless present |
| Permissions.PushAll | src/startup/validation.rs:15-21 | the loop keeps the target as a prefix and appends the first occurrences of what it lacks, in order |
| Permissions.Config.ApplyCliPermissionOverrides | src/startup/validation.rs:10-22 | both lists of the configuration are merged with their own argument's entries |
| Percentile.RankInRange | benches/startup.rs:333-342 | for a fraction in (0, 1] the nearest rank lies between 1 and the number of samples |
| Percentile.NearestRankPercentile | benches/startup.rs:329-347 | succeeds exactly on samples, a proper fraction and no overflow, with the sample of that rank |
| Percentile.PercentileMeaning | benches/startup.rs:337-346 | at least the fraction of the samples is at most the result, strictly less than the fraction is below it |
| Percentile.Median | benches/startup.rs:305-327 | succeeds exactly on samples, with the middle one or the mean of the two middle ones |
| Percentile.MedianMeaning | benches/startup.rs:305-327 | at least half of the samples are at most the median and at least half are at least it |
| Percentile.MedianIsSymmetric | benches/startup.rs:305-327 | the median of the mirrored samples is the negative of the median |

## Left out

- Process spawning, stdio, JSON encoding, the network, terminal prompts and rendering. The decision an approval prompt yields and whether the server takes a steering message are inputs attached to the stream's items.
- A steering channel that closes: the loop then keeps polling it, which the model, where accepted steering is a stutter, does not show.
- drain_startup_notifications and thread start-up: the same tracker calls as in the receive loop, with an end of stream that is not an error.
- Which waiter `notify_one` wakes: any blocked awaiter may be, which covers the original's order.
- Memory orderings of the probe's atomics: steps are sequentially consistent. Runtime shutdown and cancelled awaiters are not modelled.
- Regular expressions, the allow list with its glob patterns, `str.isalnum` and `str.strip`: predicates on lines, line numbers and characters. That a newline, or in one example a space, is no letter or digit is all that is assumed of them, where stated.
- Reading a file and its decoding, which also turns carriage returns into newlines before `splitlines` sees the text.
- JsonPointer.ResolvesWhatItDenotes: percent-encoding in URI fragments (section 6 of RFC 6901) is not decoded, neither by the script nor in what a pointer is taken to denote.
- JSON numbers are integers: nothing modelled looks inside one. Exceptions are one failure value; their kinds and texts are not told apart.
- SchemaMerge.MergeSchema: a `required` that is not a list of names, or `properties` that are not an object, count as failures when they are to be combined, though the script accepts a few such shapes, such as a text taken as a set of characters.
- SchemaNormalize.ExpandReferences: a reference target that is not an object counts as a failure at once; the script may return it, and every caller's next step on it raises.
- SchemaNormalize.NormalizeSchemaNode: likewise for a node that is not an object.
- Type names, defaults and descriptions of fields: a parameter of the walk, as they only format. Escaping of table cells and Markdown output are left out.
- Non-UTF-8 arguments of the launcher and their lossy conversion, and what it does after parsing.
- Scores and samples are exact reals. Texts in the suggestion ranking are byte strings.
- Counters of the trajectory summary are unbounded; parsing a line into a record is an input. Printing the report is left out.
- Loop bodies that branch a lot are methods of their own (`TakeItem`, `StripToken`, `ScanLine`, `ScanOutside`, `Classify`, `NextSetting`, `Tally`, `Total`, `Tabulate`, `WalkBranch`), which the original writes in line; the blanking loop's four flags travel as one record. Maps and lists are values held in class fields, so aliasing between them is not modelled.
- The startup policy matrix, session resumption, retry loops and the OAuth callback: finite case analysis.
