# A model of Nacho Flow's algorithms

Nacho Flow is a gateway between coding agents and language models. Around its HTTP plumbing it rewrites
request bodies byte by byte, compacts conversations in place, translates them for Anthropic, decides how
often an upstream is asked again, splits streams into prose and tool text, and keeps counters per session,
per provider and per minute. This project models those parts in Dafny and proves what they are meant to
guarantee. `dafny verify dfyconfig.toml` checks all of it.

Code that updates buffers, fields or counters is modelled as methods with loops over arrays and as classes.
Each such method is proved equal to a function of its inputs or of the old state, and the properties are
lemmas about that function. Bytes are Dafny characters, and integers are unbounded unless a width matters:
the 8-bit read counters, the 32-bit breaker threshold and the 512-bit index set are explicit.

| Area | Modules |
|---|---|
| JSON texts, object edits and the payload rewrite | `Json`, `ObjectEdit`, `PayloadSpec`, `PayloadProperties`, `PayloadScan`, `PayloadDelete`, `PayloadNested`, `PayloadReasoning`, `PayloadRewrite`, `PayloadUpstream`, `PayloadInputs` |
| JSON inside free text | `Balanced` |
| In-place compaction of tool output | `Buffer`, `Ansi`, `CarriageReturn`, `Boilerplate`, `Whitespace`, `Dedup`, `Pipeline` |
| What is dropped from a conversation | `Reasoning`, `StaleReads`, `Reminders` |
| Anthropic translation | `ThinkingCache`, `Anthropic`, `AnthropicSent` |
| Dispatch, sessions, breaker | `Dispatch`, `Session`, `Breaker` |
| Stream lanes | `StreamLanes`, `StreamCuts` |
| Edit distance, telemetry | `Levenshtein`, `Telemetry` |
| Helpers | `Wrappers`, `Numbers` |

Where the code does not do what its documentation or its tests suggest, the code is modelled, and the exact
condition is proved:

- The gateway compares keys and values by their bytes, and a body with a value that nests deeper than 128
  brackets goes out as it came. So a provider may read another `model`, a second `reasoning`, another effort
  or no `stream_options`. `PayloadUpstream` states each property for what the provider reads, after
  unescaping, and gives the exact condition on the request; `PayloadInputs` has a request for each way to fail.
- Of a repeated `include_usage` only the first is set, and of a repeated `effort` "none" only the first is
  removed (`PayloadInputs.UsageMissed`, `PayloadInputs.NoneTwiceMissed`).
- Two flags of a request are never cleared between its dispatches. After a truncated answer every later good
  answer is asked for again while a slap is left, and after a cycle every later text answer counts as one
  (`Dispatch.GoodAnswerEnds`, `Dispatch.SlappedOnGoodAnswers`, `Dispatch.RetriedOnGoodAnswers`).
- An explicit retention of zero reasoning turns drops the kickoff too, although the kickoff is meant to stay
  (`Reasoning.KickoffPruned`).
- The constant of four calls per turn bounds thought slaps, not dispatches: eight dispatches are possible
  with no cycle retry at all, and the tight bound is `M + 2 + 2 min(A, 3)` (`Dispatch.BoundAttained`). The
  recovery of a stream does not count earlier slaps and may add three calls (`Dispatch.CallsAttained`).
- At the end of a stream, held-back prose is dropped exactly when a tool call was emitted before
  (`StreamLanes.StreamConserved`).
- A write tag cut by the chunks of a stream is recognised when the chunk is held back from its "<" on. A
  closing tag cut between "<" and "/" never is: the tool lane goes on to the end (`StreamCuts.ClosingCutMissed`).
- The carriage-return pass keeps what follows the last carriage return of a line; it does not overlay it on
  what was there (`CarriageReturn.LineKept`).
- A reminder table equal to the notice text is not restored, unless the last full table was that text
  (`Reminders.CompactionReversible`).
- A breaker threshold is converted to 32 bits; safety holds exactly for thresholds that stay positive
  (`Breaker.SafeExactly`).
- The minute ring is exact if and only if no slot of the last hour was reused for another minute. An
  observation exactly an hour behind breaks it (`Telemetry.RingExact`, `Telemetry.HourLateLoses`).
- The escalation budget holds exactly when some tier is not named like the default (`Session.AntiLatching`).
  Requests without a session key are not counted at all (`Session.SessionTracker.RecordEscalation`).

## Model

| member | source | states |
|---|---|---|
| Json.SkipValueText | pkg/zeroalloc/json_scan.go:15-183 | Before a delimiter or the end, SkipValue finds the end of every well-formed value after any whitespace, and refuses exactly the values nested deeper than its 128 brackets. |
| ObjectEdit.SortedUnique | pkg/server/dispatch.go:754-759 | Two strictly sorted edit lists with the same edits are the same list, so sorting the collected edits can only give the canonical one. |
| ObjectEdit.SpliceCanon | pkg/server/dispatch.go:275-298 | Patches, one deletion with the right comma for each maximal run of dropped members, and one insertion are in bounds, sorted and disjoint. Splicing them prints the edited object, for every object and every choice of members. |
| ObjectEdit.EditedMembers | pkg/server/dispatch.go:275-298 | The edited object is well formed; its members are the surviving ones in order with their new keys and values, then the inserted ones. |
| PayloadSpec.EscapeRoundTrip | pkg/zeroalloc/bytes.go:392-421 | What AppendEscapedJSONString writes is a valid literal that stands for the string it was given. |
| PayloadSpec.DecodeSelf | pkg/server/dispatch.go:514 | A literal spells itself exactly when it has no backslash: what comparing raw bytes can tell. |
| PayloadProperties.WellFormed | pkg/server/dispatch.go:412-781 | For every well-formed request object, tier and wire dialect the rewritten object is well formed and its members are exactly the ones kept, patched or added. |
| PayloadProperties.UntouchedMembers | pkg/server/dispatch.go:511-540 | Members the gateway does not manage keep their bytes and their order, and none is lost or added. |
| PayloadProperties.SentNested | pkg/server/dispatch.go:587-649 | Of the rewritten object exactly one key is spelled `reasoning`, and one is spelled `reasoning_effort` exactly when the dialect does not strip it and the request had both. |
| PayloadProperties.NestedEffort | pkg/server/dispatch.go:589-601 | That `reasoning` is the object with the effort of the tier. |
| PayloadUpstream.ModelIsTarget | pkg/server/dispatch.go:511-527 | Every model the provider reads is the target if and only if each one of the request is seen and not spelled with the target's bytes while these have a backslash, or is not seen (an escaped key, a value too deep) and stands for the target anyway. There is one exactly when one came in or could be added. |
| PayloadUpstream.NestedReasoning | pkg/server/dispatch.go:587-649 | Under a nested dialect with an effort the provider reads one `reasoning` and as many more as the request has escaped spellings. It reads exactly one and no flat effort if and only if there are no such spellings and no flat effort stays beside a nested one, or the body goes out unedited and was so already. |
| PayloadUpstream.FlatReasoning | pkg/server/dispatch.go:650-666 | Under a flat dialect every effort the provider reads is the tier's if and only if those the gateway does not see are; there is one exactly when the body is edited or one came in. |
| PayloadUpstream.StreamAsksUsage | pkg/server/dispatch.go:542-581 | What goes out asks for usage, in every include_usage of every `stream_options`, if and only if each of the request's that is seen has no include_usage other than true behind the first, and each that is not seen asks already. |
| PayloadUpstream.EffortNoneIs | pkg/server/dispatch.go:319-322 | What the gateway takes for a none is exactly the value null and the strings "none" and "" without escapes: every none a provider reads that is not written with a backslash. |
| PayloadUpstream.NoNoneSent | pkg/server/dispatch.go:667-700 | For a dialect that forbids "none" and a tier without effort, the provider reads a none if and only if the request has one in a flat effort written with a backslash; in a reasoning object whose first plainly spelled effort is not a plain none; behind such a first none beside another key; under an escaped key; or in a body too deep to edit. |
| PayloadInputs.ModelMissed | pkg/server/dispatch.go:514-515 | A target with a backslash and a request with the same bytes: the model sent is another one. |
| PayloadInputs.ModelKeyMissed | pkg/server/dispatch.go:511-512 | A request with an escaped `model` key: its other model is sent beside the target. |
| PayloadInputs.ModelDeepMissed | pkg/server/dispatch.go:505-508 | A request with a value too deep: its model is sent. |
| PayloadInputs.NestedKeyMissed | pkg/server/dispatch.go:530-531 | A request with an escaped `reasoning` key: two are sent. |
| PayloadInputs.NestedDeepMissed | pkg/server/dispatch.go:505-508 | A request with a value too deep: none is sent. |
| PayloadInputs.FlatKeyMissed | pkg/server/dispatch.go:528-529 | A request with an escaped `reasoning_effort` key keeps its effort. |
| PayloadInputs.FlatDeepMissed | pkg/server/dispatch.go:505-508 | So does one with a value too deep. |
| PayloadInputs.UsageMissed | pkg/server/dispatch.go:556-559 | A stream whose options have include_usage false twice: the second one stays false. |
| PayloadInputs.StreamKeyMissed | pkg/server/dispatch.go:532-536 | A stream with an escaped `stream` key gets no options. |
| PayloadInputs.StreamDeepMissed | pkg/server/dispatch.go:505-508 | Neither does one with a value too deep. |
| PayloadInputs.NoneTwiceMissed | pkg/server/dispatch.go:679-690 | A reasoning object with effort "none", another member and effort "none" again keeps the second one. |
| PayloadInputs.NoneSpelledMissed | pkg/server/dispatch.go:673-677 | A flat effort "none" with an escaped letter is kept. |
| PayloadScan.SkipValueAt | pkg/zeroalloc/json_scan.go:15-57 | Skipping moves forward, stays in the body, and takes at least two bytes of a string. |
| PayloadScan.ReadMember | pkg/server/dispatch.go:481-509 | At the key of a member the cursor finds where key and value begin and end, and fails exactly when the value nests too deep. |
| PayloadScan.ScanMembers | pkg/server/dispatch.go:464-540 | The scan of a well-formed object succeeds exactly when no value is too deep, and then has counted the members, seen every managed one at its place, and collected the model edits. |
| PayloadDelete.DeleteMemberSpan | pkg/server/dispatch.go:275-298 | For a run of members the span deleted is the one of ObjectEdit, with the comma before it or, for the first members, the one behind. |
| PayloadDelete.SortSpans | pkg/server/dispatch.go:372-381 | Sorting spans permutes the members they stand for into increasing order. |
| PayloadDelete.MergeSpans | pkg/server/dispatch.go:382-403 | Merging in place leaves one span for each run of neighbouring members, in front of the slice. |
| PayloadDelete.DeleteEdits | pkg/server/dispatch.go:613-620 | The deletions made are those of the maximal runs of dropped members, each once. |
| PayloadNested.ObjectField | pkg/zeroalloc/json_scan.go:195-267 | Inside an object the lookup succeeds exactly when the key is there, and gives the span of its first member; anything else is refused. |
| PayloadNested.UsageEdit | pkg/server/dispatch.go:545-579 | The edit of a `stream_options` value is the one that turns its usage on: set it, insert it with the comma it needs, or replace the value. |
| PayloadNested.NestedReasoningSoleEffort | pkg/server/dispatch.go:325-368 | The answer tells whether the object's effort is "none", where it is, and whether it is the only member. |
| PayloadReasoning.ReplaceFirst | pkg/server/dispatch.go:595-620 | The first nested member is set, its duplicates and the stripped flat ones go. |
| PayloadReasoning.RenameFirst | pkg/server/dispatch.go:621-642 | The first flat member becomes a nested one, its duplicates go. |
| PayloadReasoning.FlatEffort | pkg/server/dispatch.go:650-659 | Every flat member is set to the effort of the tier. |
| PayloadReasoning.NestedNone | pkg/server/dispatch.go:679-690 | A nested value with effort "none" loses that member, or goes altogether when it has no other. |
| PayloadReasoning.ForbidNone | pkg/server/dispatch.go:667-700 | The edits are exactly the deletions and patches of the members' fates under a dialect that forbids "none"; what a provider still reads is PayloadUpstream.NoNoneSent. |
| PayloadReasoning.NormaliseReasoning | pkg/server/dispatch.go:583-700 | The reasoning edits are exactly the patches and deletions of the reasoning members' fates, with the number deleted and the member still missing. |
| PayloadRewrite.SpliceInto | pkg/zeroalloc/json_scan.go:340-360 | Splicing succeeds exactly when the edits follow one another within the source, and for sorted disjoint edits gives the source with each span replaced. |
| PayloadRewrite.SortEdits | pkg/server/dispatch.go:754-759 | The insertion sort keeps the edits and leaves them strictly sorted when their starts differ. |
| PayloadRewrite.StreamEdits | pkg/server/dispatch.go:542-581 | The edits of a streaming request's `stream_options` are exactly the patches of their fates. |
| PayloadRewrite.RemainingOk | pkg/server/dispatch.go:702 | Counting the deleted members tells whether any member is left, which decides the first comma. |
| PayloadRewrite.Insertion | pkg/server/dispatch.go:704-745 | The insertion holds the members that are missing, in order, with exactly the commas they need. |
| PayloadRewrite.AllEdits | pkg/server/dispatch.go:437-745 | Patches, deletions and the insertion collected in different places have distinct starts and are together the canonical edits. |
| PayloadRewrite.FindBounds | pkg/server/dispatch.go:413-428 | The bounds are found exactly when the body is a pair of braces with whitespace around it, and are those of the object. |
| PayloadRewrite.ModifyTopLevelPayload | pkg/server/dispatch.go:412-781 | A body that is one object goes upstream as the rewritten object between the same whitespace, or unchanged when a value nests too deep for the scanner: the object PayloadUpstream speaks of. A body without outer braces goes unchanged. |
| Balanced.FindIs | pkg/router/tool_normalizer_core.go:43-73 | The scan ends at the first character that closes the value outside of strings, or never. |
| Balanced.ExtractBalancedJSON | pkg/router/tool_normalizer_core.go:15-74 | The result is the extent after leading whitespace, its text, and whether there is one. |
| Balanced.FindPrinted | pkg/router/tool_normalizer_core.go:43-73 | The scan of a printed object or array ends with its last character and not before, whatever follows. |
| Balanced.ExtractPrinted | pkg/router/tool_normalizer_core.go:15-74 | Extraction undoes the printer: from whitespace, a printed object or array and any text it takes exactly the printed value. |
| Balanced.ExtractCutOff | pkg/router/tool_normalizer_core.go:15-74 | A value cut off anywhere before its end is not extracted. |
| Balanced.ParseBareJSON | pkg/router/tool_normalizer_parsers.go:348-379 | The loop that shrinks the content returns what one sweep over it keeps, and the calls in order; with none, or with tool tags present, the content as it was. |
| Balanced.SweepRemoves | pkg/router/tool_normalizer_parsers.go:358-373 | What remains is the content without disjoint extents, each a balanced value at its place in the original content that the call parser accepts; the calls are those the parser gives for the extents, in order, each with the id behind the calls before it. |
| Balanced.SweepPrinted | pkg/router/tool_normalizer_parsers.go:358-373 | From prose, a printed call and any text the sweep takes exactly the call and goes on behind it. |
| Buffer.Move | pkg/nts/ansi.go:63-75 | A block moved to the left leaves the buffer with that block at the target and every other byte as it was. |
| Ansi.ReadEscape | pkg/nts/ansi.go:20-62 | One escape sequence is read to its end, whichever of its forms it has. |
| Ansi.StripANSIInPlace | pkg/nts/ansi.go:8-79 | The two cursors leave exactly the text without escape sequences, and nothing behind the input is touched. |
| Ansi.StripEscape | pkg/nts/ansi.go:20-62 | Of a text without ESC, one whole escape sequence and any rest, exactly the sequence goes: a control sequence up to its first final byte, a command up to BEL or the string terminator, a charset escape of three bytes, any other of two. |
| Ansi.StripUnfinished | pkg/nts/ansi.go:20-62 | The beginning of a sequence that does not end goes with the end of the text. |
| Ansi.EscapeBegins | pkg/nts/ansi.go:20-62 | Every ESC begins one or the other, so the two decide every text. |
| Ansi.StripLeavesNone | pkg/nts/ansi.go:8-79 | No escape byte is left, and a text is unchanged exactly when it has none. |
| Ansi.StripTwice | pkg/nts/ansi.go:8-79 | Stripping again changes nothing. |
| CarriageReturn.ResolveCarriageReturnsInPlace | pkg/nts/cr.go:10-62 | The rewinding write cursor leaves exactly what the recursive specification gives. |
| CarriageReturn.ResolveLeavesNone | pkg/nts/cr.go:10-62 | No carriage return is left. |
| CarriageReturn.ResolvePlain | pkg/nts/cr.go:10-62 | A text without carriage returns is unchanged. |
| CarriageReturn.ResolveTwice | pkg/nts/cr.go:10-62 | Resolving again changes nothing. |
| CarriageReturn.LineKept | pkg/nts/cr.go:27-59 | Every line becomes what follows its last carriage return, one directly before the newline aside. |
| CarriageReturn.LastLineKept | pkg/nts/cr.go:27-59 | So does a last line without a newline, even when it ends in a carriage return. |
| Boilerplate.StripToolBoilerplateInPlace | pkg/nts/boilerplate.go:16-84 | The line loop with its flag leaves exactly what the recursive specification gives. |
| Boilerplate.StrippedOnce | pkg/nts/boilerplate.go:16-84 | Stripping again changes nothing. |
| Boilerplate.StrippedNoNoise | pkg/nts/boilerplate.go:32-41 | No line of the result carries a notice or the node hint. |
| Boilerplate.StrippedPlain | pkg/nts/boilerplate.go:72-80 | Text without notices, hints or opened dumps is unchanged. |
| Whitespace.NormalizeWhitespaceInPlace | pkg/nts/whitespace.go:9-62 | The loop and the trimming behind it leave exactly the normalized text. |
| Whitespace.LinesNormal | pkg/nts/whitespace.go:15-54 | The loop's result has no trailing blanks and no two blank lines in a row. |
| Whitespace.NormalizedOnce | pkg/nts/whitespace.go:9-62 | The result is normal, does not end in a blank line, and is unchanged by a second pass. |
| Pipeline.Pipeline.Process | pkg/nts/pipeline.go:10-107 | With the threshold NewPipeline sets, the first ReducedBytes bytes are the composition of the passes that are on. Line dedup leaves that text when it has no run to collapse, and otherwise a shorter one that begins with the first run replaced by its notice. Bypassed input is untouched, and the savings reported are the bytes removed, four to a token, rounded up. |
| Pipeline.CompactedIsClean | pkg/nts/pipeline.go:61-90 | No later pass brings back what an earlier one removed: the result has no escape byte and no carriage return and is normal. |
| Dedup.FlushRepeats | pkg/nts/dedup.go:82-130 | The flush writes the notice, or the held lines again, within the bytes that were held back, and changes nothing outside; the notice is always shorter. |
| Dedup.CollapseDuplicatesInPlace | pkg/nts/dedup.go:17-80 | Writing never overtakes reading, all writes are in bounds, bytes behind the result are untouched. With a threshold above 1 a run collapses if and only if the text has one: a line worth it, the first of its run, repeated as often as the threshold asks and longer than its notice. Then the output is shorter and begins with the input up to the first such run, replaced by its notice; otherwise nothing changes. |
| Dedup.FirstOfPrefix | pkg/nts/dedup.go:17-80 | Which run is the first depends only on the text given, not on what is behind it in the buffer. |
| Reasoning.PrecededByToolError | pkg/nts/transformer.go:1009-1029 | True exactly when a tool error comes after the previous assistant turn. |
| Reasoning.ForwardScan | pkg/nts/transformer.go:1161-1190 | One pass finds the reasoning turns, the substantial ones, their number and the kickoff, the first of the longest eligible turns. |
| Reasoning.PeelTail | pkg/nts/transformer.go:1211-1256 | The backward walk takes the turns of an error streak at the end out of all three. |
| Reasoning.IdentifyHistoricalReasoningIndices | pkg/nts/transformer.go:1115-1294 | The whole procedure computes the pruned set of the specification, for every configuration and conversation. |
| Reasoning.KickoffChosen | pkg/nts/transformer.go:1168-1190 | The kickoff is the first of the longest reasoning turns among the first scanTurns assistant turns that reach the minimum; there is none exactly when it is switched off or none qualifies. |
| Reasoning.KickoffPruned | pkg/nts/transformer.go:1139-1209 | The kickoff is pruned if and only if reasoning is stripped with a retention of zero turns. |
| Reasoning.OnlyReasoningPruned | pkg/nts/transformer.go:1161-1293 | Only reasoning turns of the assistant among the first 512 messages are pruned. |
| Reasoning.CleanAfterTail | pkg/nts/transformer.go:1211-1256 | A clean tail protects no turn. |
| Reasoning.PrunedRule | pkg/nts/transformer.go:1161-1293 | With hysteresis, a clean tail and a substantial turn, a turn is pruned exactly when it is within the dropped whole steps, counted from the start. |
| Reasoning.SlidingRule | pkg/nts/transformer.go:1261-1293 | Without hysteresis, with a clean tail and a substantial turn, a turn is pruned exactly when as many substantial turns as are to be kept come after it. |
| Reasoning.StreakProtected | pkg/nts/transformer.go:1211-1256 | With freezeOnErrors, some turns kept and a tail in error, no turn from the one that set off the retries on is pruned: the last assistant turn that does not follow a tool error, and every turn after it. |
| Reasoning.StreakSlidingRule | pkg/nts/transformer.go:1211-1293 | Then, without hysteresis, an earlier turn goes if and only if enough substantial turns come between it and the end of that turn: retries spend no budget. |
| Reasoning.StreakPrunedRule | pkg/nts/transformer.go:1211-1293 | With hysteresis the whole steps are counted up to that turn as well. |
| Reasoning.StreakFreezes | pkg/nts/transformer.go:1211-1293 | While only retries are appended, the pruned set does not change. |
| Reasoning.PrunedInSteps | pkg/nts/transformer.go:1261-1293 | The pruned substantial turns number a multiple of the step; those kept, the kickoff aside, are fewer than the low watermark and one step, and no fewer than the watermark when there are that many. |
| Reasoning.PruningGrows | pkg/nts/transformer.go:1261-1293 | Once the kickoff scan is over, appending messages only enlarges the pruned set. |
| Reasoning.PruningStays | pkg/nts/transformer.go:1261-1293 | While no further whole step is dropped the pruned set does not change, so the prompt prefix stays stable. |
| StaleReads.KeyTells | pkg/nts/stale_reads.go:265-270 | The path key equals the path exactly for whole-file reads, and ranged keys are equal exactly for the same file, start and end. |
| StaleReads.FindHashIndex | pkg/nts/stale_reads.go:233-249 | The first slot that holds the target, or none. |
| StaleReads.Table.Bump | pkg/nts/stale_reads.go:186-200 | One more read: a counter of eight bits goes up and wraps, or a new slot is used while there is one. |
| StaleReads.IdentifySupersededCalls | pkg/nts/stale_reads.go:149-231 | The array version returns the ids marked by the scan of the specification, for every hash and depth. |
| StaleReads.MarkedIsSuperseded | pkg/nts/stale_reads.go:149-231 | For every call list on whose paths and keys the hash has no collision, whatever is marked has a later write to its file or at least `depth` later reads that cover it, however full the tables and however often the counters wrap. |
| StaleReads.MarkedIffSuperseded | pkg/nts/stale_reads.go:149-231 | For a hash without such a collision, while no table fills and no counter wraps, exactly the superseded reads are marked. |
| Reminders.DeduplicateRemindersContext.CompactReminders | pkg/nts/reminders.go:39-104 | One message is encoded as specified, with the context's two fields, the bytes saved and whether the table was replaced. |
| Reminders.NoticeFound | pkg/nts/reminders.go:76-81 | A text whose table was replaced has the notice as its table, at the same place, with the same text around it. |
| Reminders.DecodeOne | pkg/nts/reminders.go:39-104 | One message comes back, up to the table's trailing blanks, exactly when it is not ambiguous, and decoder and encoder then agree on the last table. |
| Reminders.AmbiguousLost | pkg/nts/reminders.go:74-103 | A message whose own table is the notice comes back only if that was the last full table. |
| Reminders.CompactionReversible | pkg/nts/reminders.go:39-104 | For every sequence of messages, decoding gives all of them back if and only if none is ambiguous. |
| Reminders.RefreshedInTime | pkg/nts/reminders.go:74-103 | Fewer notices than the refresh interval come between two full tables. |
| Reminders.ReplacedExactly | pkg/nts/reminders.go:74-103 | A table is replaced if and only if equal tables came directly before it and their number is not a multiple of the refresh interval. |
| ThinkingCache.PutSound | pkg/provider/anthropic.go:61-84 | Keys stay distinct and at most 256. |
| ThinkingCache.PutAgainKeepsAge | pkg/provider/anthropic.go:68-71 | Putting a key again replaces its blocks and leaves every key at its age. |
| ThinkingCache.HoldsLatest | pkg/provider/anthropic.go:61-84 | After any sequence of puts the cache holds exactly the latest first insertions, in order; eviction takes the oldest. |
| ThinkingCache.ThinkingBlockCache.Put | pkg/provider/anthropic.go:61-84 | Ring and map together refine the ordered list: a put does to it what the specification says, and the map's keys stay the ring's entries. |
| ThinkingCache.ThinkingBlockCache.Get | pkg/provider/anthropic.go:86-94 | The blocks of the key in the list, if it is there. |
| ThinkingCache.ThinkingBlockCache.Len | pkg/provider/anthropic.go:96-104 | The length of the list, at most 256. |
| Anthropic.RecentTurns | pkg/provider/anthropic.go:801-834 | The three-slot ring and the anchor are those of the cached turns. |
| Anthropic.RehydratedTurns | pkg/provider/anthropic.go:801-854 | Without payload reasoning exactly the first cached turn and the last three get their blocks back. |
| Anthropic.StripDuplicateThinkingBlocks | pkg/provider/anthropic.go:899-917 | Incoming thinking blocks that the turn already has are left out, all others stay in order. |
| Anthropic.TranslateMessagesFast | pkg/provider/anthropic.go:798-897 | The loop that appends into the last turn computes the translation of the specification. |
| Anthropic.BuildMessages | pkg/provider/anthropic.go:366-388 | Behind it the prefill is dropped for thinking models, and an empty conversation greets. |
| Anthropic.SentIsWellFormed | pkg/provider/anthropic.go:366-388 | What is sent starts with the user, alternates, has no empty turn, is never empty, and for thinking models does not end with the assistant. |
| AnthropicSent.SentExactly | pkg/provider/anthropic.go:366-388 | What is sent are the blocks the messages give, each thinking once a turn; an assistant turn at the end goes if and only if the model thinks; the greeting stands in front if and only if the messages do not begin with the user, and alone if nothing is left. |
| AnthropicSent.TaggedTells | pkg/provider/anthropic.go:836-882 | Alternating turns are determined by their blocks, so these two leave one answer. |
| AnthropicSent.GivenRoles | pkg/provider/anthropic.go:866-869 | Roles are those of the messages; a tool speaks as the user. |
| AnthropicSent.StripExactly | pkg/provider/anthropic.go:899-917 | A block goes exactly when it is thinking with a signature, or data, that the turn has; every other stays in its place. |
| AnthropicSent.ConvertIs | pkg/provider/anthropic.go:932-960 | A message is the thinking the cache has for it, in order and without other entries, then its own blocks; only tool turns of the assistant are given any. |
| AnthropicSent.HitFirst | pkg/provider/anthropic.go:846-853 | The blocks are those of the first tool call that the cache knows. |
| AnthropicSent.RehydratedWithReasoning | pkg/provider/anthropic.go:838-854 | When the client sent reasoning, exactly the cached turns that carry some get their blocks back. |
| Anthropic.MergedExactly | pkg/provider/anthropic.go:836-917 | The turns hold exactly the blocks of the messages, with their roles, in order and as often as given, without the thinking that repeats what an earlier message of the same turn gave. |
| Anthropic.MergedKeepsPlain | pkg/provider/anthropic.go:836-882 | Merging keeps every block that is not thinking, with its role and in order. |
| Anthropic.MergedStands | pkg/provider/anthropic.go:836-882 | A block given is in the turns under its role, or one with the same signature or data is. |
| Anthropic.MergedInvents | pkg/provider/anthropic.go:836-882 | A block in the turns was given under that role. |
| Dispatch.NextRises | pkg/server/dispatch.go:112-176 | Between two dispatches the retries rise by one for the same tier; or the slaps rise by one, for the first tier with the rescue name when one is set and found and for the same tier otherwise; or the fallback flag goes from false to true for the default tier. |
| Dispatch.RunSteps | pkg/server/dispatch_unary.go:150-155 | So it is at every two dispatches of every request that follow each other. |
| Dispatch.NextExactly | pkg/server/dispatch_unary.go:71-287 | Slap, retry and fallback are taken exactly under their conditions on the event and the state, never two of them, and nothing else follows a dispatch; counters, tier and flags of the next one are given. |
| Dispatch.DispatchesBounded | pkg/server/dispatch.go:90-176 | Whatever the upstream does, a request makes at most M + 2 + 2 min(A, 3) dispatches, M and A bounding the tiers' retry limits and slap attempts. |
| Dispatch.BoundAttained | pkg/server/dispatch_unary.go:139-175 | For all M and A some tiers and some upstream reach that bound; with three slaps and no retry that is twice the constant meant to cap a turn. |
| Dispatch.FlagsStick | pkg/server/dispatch_unary.go:136-168 | In every run, each dispatch after a slap carries the truncation flag and each one after a retry the cycle flag. |
| Dispatch.GoodAnswerEnds | pkg/server/dispatch_unary.go:140-254 | A good unary answer ends the request if and only if no slap is left for an earlier truncation (tier not opted in, client gone, attempts or global cap used up) and no earlier cycle is held against it. |
| Dispatch.RecoveredAskedAgain | pkg/server/dispatch_unary.go:140-169 | In every run a good answer behind a slap is slapped again while a slap is left, and ends the request once none is and no cycle came before. |
| Dispatch.SlappedOnGoodAnswers | pkg/server/dispatch_unary.go:140-169 | One truncated answer and three good ones: four dispatches. |
| Dispatch.RetriedOnGoodAnswers | pkg/server/dispatch_unary.go:210-254 | One cycle and good answers after it: three retries and the default tier. |
| Dispatch.CallsBounded | pkg/server/thought_slap.go:215-318 | Dispatches and recovery calls of a request are at most M + 2 + 2 min(A, 3) + max(0, min(A, 3 - M)). |
| Dispatch.CallsAttained | pkg/server/thought_slap.go:215-318 | Some tiers, upstream and recovery reach that bound for all M and A. |
| Dispatch.RecoverStream | pkg/server/thought_slap.go:215-318 | The recovery loop makes at most three calls and ends as specified; only a failed call is not an attempt. |
| Dispatch.RecoverExactly | pkg/server/thought_slap.go:215-318 | The loop stops with the first request that brings something, fails or lets the terminal chunk go, before one for which the client is gone, and at its limit; which of these it was is the outcome. |
| Dispatch.RecoveryTaken | pkg/server/dispatch_stream.go:265-269 | It runs exactly for a stream that is looked at, not severed by a cycle, and holds its terminal chunk on a tier that opted in. |
| Dispatch.Server.Forward | pkg/server/dispatch.go:75-86 | One request dispatches exactly the states of the run, makes exactly its recovery calls, terminates, and keeps both bounds. |
| Dispatch.Server.DispatchTier | pkg/server/dispatch.go:90-176 | The recursion with its handlers terminates and carries out exactly the run, recovery calls included. |
| Dispatch.Server.HandleStreaming | pkg/server/dispatch_stream.go:23-277 | The streaming handler continues the run, or makes its recovery calls. |
| Dispatch.Server.HandleNonStreaming | pkg/server/dispatch_unary.go:71-287 | The non-streaming handler continues the run, with the two flags as earlier dispatches left them. |
| Session.SessionTracker.RecordTurnTaskWithHold | pkg/router/session.go:109-261 | The session's counters, the retries and the retry flag are those of the specification, and no other session changes except by eviction. |
| Session.SessionTracker.CountTurn | pkg/router/session.go:163-234 | Within a task the branches on hashes, tools, progress and hold count as the verdict of the turn says. |
| Session.SessionTracker.Evict | pkg/router/session.go:263-278 | Eviction changes no session that stays, does nothing below capacity, and makes room otherwise. |
| Session.SessionTracker.RecordEscalation | pkg/router/session.go:309-321 | The count goes up and is exhausted beyond three; without a key or a session nothing is counted. |
| Session.SessionTracker.ResetEscalation | pkg/router/session.go:324-334 | The count of that session is zero, everything else as before. |
| Session.SessionTracker.RecordKickstartState | pkg/router/session.go:376-405 | Progress clears both counters; a tripped breaker suppresses the injection; otherwise the count goes up and is compared with the threshold. |
| Session.SessionTracker.RecordKickstartFailure | pkg/router/session.go:407-419 | One more failure for that session. |
| Session.SessionTracker.RecordCycleKill | pkg/router/session.go:469-504 | The retry floor rises to the one given and never falls; the session is created if needed. |
| Session.SessionTracker.TouchForMeta | pkg/router/session.go:339-367 | A meta command creates the session or refreshes its time, and changes no counter. |
| Session.SessionTracker.ResetSession | pkg/router/session.go:691-713 | The reset command zeroes the counters, the floor and the hashes, and keeps the session and its time. |
| Session.SessionTracker.EnforceAntiLatching | pkg/server/pipeline.go:460-486 | The default tier is replaced by the first other one when the budget is exhausted, and any other tier resets the count. |
| Session.SessionTracker.HandleTurn | pkg/server/pipeline.go:294-348 | The steps of a request that touch its session leave the session and report what one function of the turn says. |
| Session.DefaultsCounted | pkg/server/pipeline.go:460-486 | In every run the returns of the default tier since the last zeroing are the escalation count, capped at three if there is another tier. |
| Session.AntiLatching | pkg/server/pipeline.go:460-486 | In every run the default tier is returned at most three times between two zeroings if and only if some tier has another name. |
| Session.SlapsBounded | pkg/server/pipeline.go:592-606 | In every run the injections since the failures were last cleared are the failures counted, at most maxFailures. |
| Session.FloorHolds | pkg/router/session.go:238-247 | After a cycle kill with floor F the turn that follows k others, k below F, is a retry with at least F - k retries, whatever else happens to a session neither lost nor reset nor expired. |
| Session.RetriesCounted | pkg/router/session.go:131-234 | In every run the retries of a session are the turns counted as retries since the last new session, expiry, new task, progress or reset; a turn that repairs under failing tests leaves them, once there are any. |
| Session.RetriesReported | pkg/server/pipeline.go:305-313 | What a turn reports is the greatest of that number, zero when it is none itself, the floor it found and the errors of its history; it is a retry exactly when that is more than zero. |
| Session.TurnRemembers | pkg/router/session.go:131-234 | What the next turn is compared with: prompt, number of messages and time of this one, and the root of its task. |
| Session.FloorDecays | pkg/router/session.go:238-247 | Without a further kill the floor goes down by one with every turn, to zero. |
| Session.StallsCounted | pkg/router/session.go:376-405 | In every run the kickstart count is the number of turns without progress since it was last cleared, those behind the last slap allowed aside. |
| Session.SlappedExactly | pkg/server/pipeline.go:592-606 | A slap is injected exactly when those turns have reached the threshold, slaps are left, and no checkpoint suppresses it. |
| StreamLanes.FindEarliestWriteTag | pkg/server/stream_normalizer.go:73-121 | The first tag of a write tool and the end behind its ">", if any. |
| StreamLanes.FindPartialWriteTagSuffix | pkg/server/stream_normalizer.go:131-162 | The longest end of the text that is held back as the possible beginning of a tag. |
| StreamLanes.StreamNormalizer.RouteContentDelta | pkg/server/stream_normalizer.go:724-802 | One chunk is routed as specified: the pieces recorded, the lane, and the text held back. |
| StreamLanes.StreamNormalizer.HandleDone | pkg/server/stream_normalizer.go:819-850 | At the end the held text is flushed or dropped as specified, and the lane is closed. |
| StreamLanes.RouteConserves | pkg/server/stream_normalizer.go:724-802 | Recorded text, in order, and the held text are the chunk with what was held before. |
| StreamLanes.ChunksConserved | pkg/server/stream_normalizer.go:724-802 | For every way of cutting a text into chunks nothing is lost, duplicated or reordered. |
| StreamLanes.StreamConserved | pkg/server/stream_normalizer.go:819-850 | After the flush the recorded text is the whole input if and only if no prose was held after an emitted tool call. |
| StreamLanes.RouteLaned | pkg/server/stream_normalizer.go:724-802 | Within a chunk tool text starts only at a complete opening tag of a write tool and ends only at a complete closing one. |
| StreamLanes.ChunksLaned | pkg/server/stream_normalizer.go:724-802 | So it does over every sequence of chunks. |
| StreamLanes.ChunksSettled | pkg/server/stream_normalizer.go:760-798 | Over every sequence of chunks the category is a file write exactly inside a tool tag, a call is active there, and outside only when native tool calls keep it so. |
| StreamCuts.PartialExactly | pkg/server/stream_normalizer.go:131-162 | An end of the text is held back if and only if it fits the window of 25 bytes and may be the beginning of a tag: its only prefix at its start, no ">", and the rest begins the name of a write tool. |
| StreamCuts.CutTagRecorded | pkg/server/stream_normalizer.go:724-802 | A write tag cut in two is recorded, character by character, as if it had come in one chunk, with the same lane and held text, whenever the first chunk is held from its "<" on; for an opening tag if and only if. |
| StreamCuts.CutHeld | pkg/server/stream_normalizer.go:724-802 | It is held when the cut is behind the name, or within it with no more than the window before and a registered beginning. |
| StreamCuts.ClosingCutMissed | pkg/server/stream_normalizer.go:140-148 | A closing tag cut between "<" and "/" is missed: everything is recorded as tool text and the tool lane goes on. |
| Levenshtein.LevenshteinDistance | pkg/router/directive.go:355-397 | The table's last entry is the recursive distance of the lowered inputs. |
| Levenshtein.ScriptCosts | pkg/router/directive.go:355-397 | No script of keeps, replacements, insertions and deletions is cheaper than the distance of its two ends. |
| Levenshtein.DistanceIsLeast | pkg/router/directive.go:355-397 | The distance is the least number of edits from one text to the other. |
| Levenshtein.Symmetric | pkg/router/directive.go:355-397 | The distance is symmetric. |
| Levenshtein.Triangle | pkg/router/directive.go:355-397 | The triangle inequality holds. |
| Levenshtein.ZeroIffEqual | pkg/router/directive.go:355-397 | Only equal texts have distance zero. |
| Levenshtein.FindClosestDirective | pkg/router/directive.go:400-417 | The first candidate of least distance within the limit, or none when all are farther. |
| Breaker.RunKeeps | pkg/provider/circuit_breaker.go:68-123 | With a positive threshold every interleaving of the atomic steps keeps the invariant that ties mutex, state and failures. |
| Breaker.SafeExactly | pkg/provider/circuit_breaker.go:47-60 | Under every interleaving a closed breaker with a free mutex has fewer failures than its threshold, if and only if the threshold converted to 32 bits is positive. |
| Breaker.ThresholdsThatFit | pkg/provider/circuit_breaker.go:47-60 | Every threshold below 2^31 does; 2^31 and 2^32 do not. |
| Breaker.MutualExclusion | pkg/provider/circuit_breaker.go:79-123 | At most one thread is in a critical section. |
| Breaker.OthersLeave | pkg/provider/circuit_breaker.go:68-123 | While a thread is in a critical section no step of another changes the state or the time of the last failure. |
| Breaker.ThresholdOpens | pkg/provider/circuit_breaker.go:104-114 | In every run, once a thread has found its count at the threshold, the breaker is open when that thread releases the mutex, whatever the others do in between. |
| Breaker.FailureDecides | pkg/provider/circuit_breaker.go:104-114 | In every run, when a failure returns, the breaker is open if its count reached the threshold or it found the breaker half-open, and as it found it otherwise; the time of the last failure is its own. |
| Breaker.SuccessCloses | pkg/provider/circuit_breaker.go:92-101 | In every run, when a success that found the breaker open or half-open returns, the breaker is closed without failures, whatever the others do in between. |
| Breaker.AllowAnswers | pkg/provider/circuit_breaker.go:68-89 | In every run a request is refused exactly when the breaker was seen open and the cooldown since the last failure was not over; one let through after the cooldown leaves the breaker not open. |
| Telemetry.AddToWindow | pkg/telemetry/metrics.go:466-506 | A window gains exactly what one observation is worth in every counter. |
| Telemetry.UsageCounted | pkg/telemetry/metrics.go:466-506 | The totals of a period are the number of its observations, their tokens, local tokens, costs and savings. |
| Telemetry.CyclesCounted | pkg/telemetry/metrics.go:474-486 | Heals and escalations are the broken cycles without and with the fallback tier, each worth 8000 tokens and 228 seconds; kickstarts are counted. |
| Telemetry.SlapsCounted | pkg/telemetry/metrics.go:490-500 | The slap counters are the sums over the observations with an attempt, and the numbers of those that recovered or were exhausted. |
| Telemetry.CompactionCounted | pkg/telemetry/metrics.go:501-505 | The compaction counters sum over the observations that saved something. |
| Telemetry.RollOver | pkg/telemetry/metrics.go:403-418 | When a day opens, week and month start at zero exactly when they change, and yesterday's bucket is complete: the windows are still the log's totals of their periods. |
| Telemetry.WindowsSumBuckets | pkg/telemetry/metrics.go:379-442 | Today and yesterday are their buckets; this week and this month are the sums of their daily buckets, none of which was pruned. |
| Telemetry.StatsTracker.UpdateWindows | pkg/telemetry/metrics.go:379-464 | After every observation from an empty tracker on, late ones included, all windows, recent buckets and the ring are those of the log with it. |
| Telemetry.StatsTracker.OpenDay | pkg/telemetry/metrics.go:395-421 | The rollover opens the newer day, keeps the windows in agreement with the log, and prunes only what no window needs. |
| Telemetry.StatsTracker.PruneBuckets | pkg/telemetry/metrics.go:370-377 | Exactly the buckets more than 31 days back go. |
| Telemetry.StatsTracker.PastHour | pkg/telemetry/metrics.go:889-903 | The reading is what the ring shows at the later of now and the newest observation. |
| Telemetry.RingConserves | pkg/telemetry/metrics.go:444-458 | For every log and minute, what the ring shows and what was written over add up to the last hour's total. |
| Telemetry.RingExact | pkg/telemetry/metrics.go:444-458 | The ring shows exactly the last hour if and only if no slot of that hour was reused for another minute. |
| Telemetry.RingIsLastHour | pkg/telemetry/metrics.go:444-458 | It does whenever no observation comes an hour or more behind an earlier one, in particular for times that never decrease. |
| Telemetry.PastHourIsExact | pkg/telemetry/metrics.go:889-903 | Then every reading GetStats makes is the total of the last sixty minutes. |
| Telemetry.HourLateLoses | pkg/telemetry/metrics.go:449-454 | An observation exactly an hour behind makes the reading wrong. |

## Left out

- PayloadRewrite.ModifyTopLevelPayload: does not say what becomes of a body that has outer braces but is not a well-formed object between them; the code edits what its scanner accepts.
- Dedup.CollapseDuplicatesInPlace: does not model the lines after the first collapse, because the line compared with is a view of the buffer that later writes may have changed; cursors, bounds and length are proved throughout.
- Pipeline.Pipeline.Process: does not model the collapse of verbose test output, nor the text behind the first collapsed run, for the reason above. Durations are left out.
- Reasoning.PruningGrows: does not cover conversations without a substantial turn because there the count is not the size of the set, nor a streak that ends, because its protection is meant to be temporary; while it lasts see Reasoning.StreakFreezes.
- Reasoning.IdentifyHistoricalReasoningIndices: thresholds arrive resolved, and the tool-error test and the length of a turn's reasoning are inputs.
- StaleReads.MarkedIsSuperseded: asks for a hash without collisions on the paths and keys that occur; with one, a read of another file may be marked.
- StaleReads.MarkedIffSuperseded: holds while no table fills and no counter wraps; beyond that only the direction of StaleReads.MarkedIsSuperseded is true of the code.
- StaleReads.IdentifySupersededCalls: the hash is any function; extracting calls from messages and normalising paths are not modelled.
- Balanced.ParseBareJSON: which extracted texts are tool calls is an arbitrary function of the text and the next id.
- Anthropic.TranslateMessagesFast: conversion errors and the decoding of content are left out; a message carries its converted blocks. The cache's lock is not modelled.
- Dispatch.Server.Forward: what the provider, the breaker and the client do is an arbitrary event for each dispatch; building requests, writing responses and telemetry are left out.
- Session.SessionTracker.HandleTurn: turns of one session are sequential. Model cooldowns, checkpoints and remembered directives are left out; a turn whose injection is suppressed by a checkpoint is the flag `dusted`.
- Session.SessionTracker.Evict: which session is evicted when none has expired is arbitrary, as it is for the map iteration of the code.
- StreamLanes.RouteLaned: the lane a text takes may depend on where chunks are cut, as StreamCuts.CutTagRecorded says; only conservation and the tags at lane changes do not. Shield, cycle detection and SSE framing are left out.
- StreamLanes.FindEarliestWriteTag: which names are write tools, and which texts may begin one, are arbitrary predicates.
- Breaker.ThresholdOpens: nothing is said about the cooldown against the very latest failure, because its time is read before the lock. The failure counter wraps at 32 bits, as it does in the code.
- Telemetry.StatsTracker.UpdateWindows: starts from an empty tracker, so restoring windows from saved buckets and its legacy migration are not modelled. The calendar is any function that gives months in order and none more than 31 days; totals are integers and reals, and percentages are left out.
- Telemetry.RingExact: asks that observations come after the first minute of 1970, because slot zero means unused.
- Levenshtein.LevenshteinDistance: lowering a string is an arbitrary function.
- HTTP, SSE transport, keepalive goroutines, disk stores, logging, the editor extension and the command line: input and output only.
- Regular expressions, the other tool-call formats, agent catalogues, configuration, secret masking and meta-command rendering: heuristics or presentation.
