# bGSD: verified models

A Dafny project about the parts of the bGSD plugin and its command-line tools that carry
state, search or round trips. Every component is modelled in the form its source has: the
loops and mutable objects of the original are methods and classes, proved against functions
and step systems, and the promises are lemmas about those.

| component | files | main results |
|---|---|---|
| Phase scheduling | `PhaseScheduler` | a schedule is returned exactly when the numbers are distinct and the dependencies acyclic; the order is the one the queue leaves, and the only one; the waves are the longest dependency chains; a failed run reports exactly the blocked phases |
| Unified diff | `DiffScript`, `DiffHunks`, `DiffOutput` | the lines are the lines of the texts; the script is a shortest one and the only one its choices allow; a line is shown exactly when it is near a change; the hunks rebuild the new text; the output is empty exactly for equal lines; when the `@@` numbers are right |
| Refresh coordinator | `RefreshTriggers`, `RefreshBackbone`, `RefreshCoordinator` | one cycle at a time over every interleaving, no request lost or handled twice, the next step always serves what is pending; what a merged trigger keeps |
| Frontmatter | `FrontmatterParser`, `FrontmatterPrinter`, `FrontmatterLines`, `FrontmatterValues`, `FrontmatterNesting`, `Frontmatter` | what any document parses to, line by line and value by value; exactly which trees come back when a spliced document is parsed; exactly when the text after them survives, and a second splice replaces the first |
| INTENT.md | `IntentFormat`, `IntentLines`, `IntentSections`, `IntentDocument`, `IntentShape`, `IntentGenerated`, `IntentRoundTrip`, `IntentReading`, `IntentSearching`, `IntentGathering`, `IntentTemplate`, `IntentMd` | which lines of any document are read and what they add up to; parsing a generated document gives the record back exactly when it states an objective |
| Naming conventions | `Naming`, `NamingRoundTrip`, `NamingAdvice` | when a name in a convention splits into its words again and is recognised; a suggestion never needs another one |
| Conditional sections | `ElisionText`, `ElisionMarkers`, `Elision`, `ElisionDocument`, `ElisionLoop` | what text is a marker, with which name and condition; cutting in reverse on original positions is sound; what is left of any document of sections |
| File cache | `FileCache`, `FileCacheBackend` | a cached read is a direct read over every run; exactly what is a hit and what is evicted; least-recently-used eviction; the size bound and its one exception |
| Roadmap cache | `SqlTable`, `Roadmap`, `RoadmapCache`, `RoadmapStore` | in every run the milestone answers are those of a fresh parse, and all answers are exactly when the view was parsed itself or the repeated phase numbers of the text agree |
| Configuration | `ConfigSchema`, `ConfigMigration`, `MigrationEffect` | a value is the first one present at the places of its key; what migration writes and reports; migration keeps the meaning of every key, is idempotent, and when it keeps the one key that is also a section |
| Notifier | `Notification`, `Notifier` | exactly which calls share a key, are duplicates, over the rate limit or suppressed; at most the limit in any minute; nothing delivered or suppressed goes missing |
| Attention cooldown | `Attention`, `AttentionMemory` | exactly which events are emitted; repeats are five minutes apart, and when not |
| Lessons | `Lessons`, `LessonCompaction` | one lesson per root cause, whatever its case and outer space, with the latest date, the highest severity and every rule, in a determined order; counts; idempotence |
| Atomic writes | `AtomicWrite`, `AtomicWriter` | the target is whole at every step of any number of crashing writers; no litter; why temporary names must differ |

`SeqFacts`, `Options`, `Strings`, `Scanning`, `TextOrder` and `Decimals` hold what the
components share: duplicate-free sequences, optional values, the string operations of
JavaScript, reading text from left to right, the order of texts, and decimal numbers.

## Where the code and its own words differ

The models follow the code.

- The diff announces "3 lines of context" (`src/commands/agent.js:690`). It shows three lines
  before a change but only one after it: a hunk is closed at the first common line without a
  change in the next three (`DiffHunks.ShownExactlyNearChange`). The code that trims trailing context therefore never
  does anything (`DiffHunks.ClosingIsTrimmed`, `DiffHunks.FinalIsTrimmed`).
- The `@@` start numbers subtract the leading context from a number that is already that of the
  first context line, and say 1 where a text without lines asks for 0: they are right exactly
  for the hunk that begins with the first entry of the script, on a side whose text has lines
  (`DiffOutput.HeaderStartExact`, `DiffOutput.EmptyTextStartsWrong`).
- `spliceFrontmatter` with an empty tree produces a fence the parser does not accept: it finds no
  frontmatter or, when the text goes on with another closing fence, takes everything before
  that one for frontmatter (`Frontmatter.EmptyTreeLosesBody`). A top-level key that begins with
  three dashes ends the frontmatter unless it is the first
  (`Frontmatter.SpliceThenParseExactlyWhen`).
- A section whose condition is named `__proto__` is removed as soon as there are any decisions,
  because that property is inherited (`Elision.ProtoNeedsNoDecision`).
- With a repeated phase number the cached roadmap answers for its last phase and the fresh one
  for its first (`RoadmapCache.RepeatedNumberAnswersDifferently`).
- An INTENT.md without an objective is read back with its placeholder comment as the objective
  (`IntentRoundTrip.IntentRoundTrip`).
- A camelCase or PascalCase name with two single letters in a row does not split into its
  words again (`NamingRoundTrip.PascalReadsBackExactlyWhen`).
- Compacting lessons that include an earlier compaction's result loses the recorded count, a
  rule is lost when the kept lesson has none, and a root cause called `constructor` or
  `__proto__` makes the command fail (`LessonCompaction.SizesAreKeptExactlyWhen`,
  `LessonCompaction.RulesAreKeptExactlyWhen`, `LessonCompaction.Compact`).
- The cooldown between two notifications of one event is reset by any other event of its kind
  (`Attention.AnotherKeyResetsTheCooldown`).

## Model

| member | source | states |
|---|---|---|
| PhaseScheduler.BuildGraph | plugin.js:5865-5882 | the adjacency lists hold exactly the edges between known phases, repeated ones included, and every in-degree is the number of edges into its phase; unknown dependencies contribute nothing |
| PhaseScheduler.ReadyWhenZero | plugin.js:5885-5887 | an in-degree over the phases not yet dequeued is zero exactly when every known dependency has been dequeued |
| PhaseScheduler.Release | plugin.js:5891-5895 | after dequeuing a phase the in-degrees again count the edges from phases not yet dequeued, so the fallback degree of 1 is never used, and exactly the phases that became ready are queued |
| PhaseScheduler.Sort | plugin.js:5883-5896 | the order lists known phases once, each after all its known dependencies and otherwise in the order in which they became ready; the phases left out all wait for one another; phases come level by level |
| PhaseScheduler.LengthTest | plugin.js:5897 | the order is as long as the list of phases exactly when the numbers are distinct and no dependency cycle exists |
| PhaseScheduler.StuckHasCycle | plugin.js:5897-5907 | phases that all wait for one another contain a cycle |
| PhaseScheduler.OrderMeansAcyclic | plugin.js:5883-5896 | an order of all phases in which dependencies come first rules out any cycle |
| PhaseScheduler.Remaining | plugin.js:5898 | the phases reported are those outside the order, in the order of the input and with every repetition |
| PhaseScheduler.LeftoverIsBlocked | plugin.js:5898 | the phases reported as a cycle are the largest set of phases that wait for one another |
| PhaseScheduler.WaveOf | plugin.js:5911-5917 | the wave of a phase is one plus the largest wave of its dependencies, unknown ones counting as 1, and 1 without dependencies |
| PhaseScheduler.AssignWaves | plugin.js:5909-5918 | every phase gets such a wave, each from waves already final when it is computed |
| PhaseScheduler.WaveIsLongestChain | plugin.js:5909-5918 | a wave is the length of the longest dependency chain that ends at its phase |
| PhaseScheduler.DependencyLowersWave | plugin.js:5914-5915 | a direct or transitive dependency is in a strictly earlier wave, so no two phases of one wave depend on each other |
| PhaseScheduler.WavesFollowTheOrder | plugin.js:5909-5918 | when every dependency is known, the order lists the phases wave by wave |
| PhaseScheduler.VerifyOrder | plugin.js:5919-5930 | the self-check finds no error in an order that came through the length test |
| PhaseScheduler.ResolvePhaseDependencies | plugin.js:5862-5940 | valid exactly for distinct numbers and no cycle; then a permutation of the phases with dependencies first, sorted by the place of the last dependency and, where that is the same, by the order of the input; correct waves and no errors; otherwise empty results and one error naming exactly the blocked phases, in the order of the input and as often as there |
| PhaseScheduler.OrderIsDetermined | plugin.js:5883-5896 | two orders of the same phases that put dependencies first and are sorted in that way are the same order |
| DiffScript.FillTable | src/commands/agent.js:656-671 | every entry of the table is the length of a longest common subsequence of the two prefixes |
| DiffScript.LcsBounds | src/commands/agent.js:663-671 | no common subsequence of two prefixes is longer than their table entry |
| DiffScript.LcsIsLongest | src/commands/agent.js:656-671 | the last entry is the length of a common subsequence, and of none longer |
| DiffScript.Backtrack | src/commands/agent.js:673-688 | the script reads the old lines and writes the new ones, with as many common lines as the table promises, every entry numbered, and every entry the one the tie rules choose |
| DiffScript.ScriptIsMinimal | src/commands/agent.js:673-688 | no script between the two lists has fewer additions and removals |
| DiffScript.ScriptIsDetermined | src/commands/agent.js:677-687 | two scripts that keep the tie rules are the same script |
| DiffScript.RemovalsComeFirst | src/commands/agent.js:681-687 | an addition directly before a removal happens only where swapping them would lose a common line |
| DiffScript.UnchangedExactlyWhenEqual | src/commands/agent.js:673-688 | the script has only common lines exactly when the two lists are equal |
| DiffHunks.NextChange | src/commands/agent.js:720-726 | the look-ahead finds the next change within six lines, or none |
| DiffHunks.GroupHunks | src/commands/agent.js:690-758 | the hunks are disjoint, ordered slices of the script that contain every change |
| DiffHunks.ShownExactlyNearChange | src/commands/agent.js:699-744 | a line is in a hunk exactly when it is a change, one of the three entries before a change, or the single entry after one |
| DiffHunks.ClosingIsTrimmed | src/commands/agent.js:728-743 | a hunk that is closed ends in exactly one common line, so trimming it to three leaves it alone |
| DiffHunks.FinalIsTrimmed | src/commands/agent.js:746-758 | a hunk still open at the end of the script ends with a change |
| DiffOutput.SameLines | src/commands/agent.js:644-651 | two texts split into the same lines exactly when they are equal up to one final newline |
| DiffOutput.LinesExactlyWhen | src/commands/agent.js:646-651 | a list is the lines of a text exactly when none of them holds a newline and, each with a newline after it, they make up the text, to which a final newline is added if it lacks one |
| DiffOutput.HunksShowLines | src/commands/agent.js:690-758 | every line shown in a hunk is a single line, and one of the lines of either text |
| DiffOutput.WriteHunk | src/commands/agent.js:767-785 | the counts in a header are the numbers of old and new lines of its hunk |
| DiffOutput.SideIsEmptyExactlyWhen | src/commands/agent.js:769-770 | a hunk has no old lines exactly when the old text has none, and the same for the new side |
| DiffOutput.HeaderStartExact | src/commands/agent.js:773-783 | a start number is the number of lines of its side before the hunk less two, but at least 1; it is the one the format asks for (0 for a side without lines) exactly when the hunk begins the script and the side's text has lines |
| DiffOutput.EmptyTextStartsWrong | src/commands/agent.js:773-783 | against a text without lines the old side starts at 1, where the format asks for 0 |
| DiffOutput.PatchRebuilds | src/commands/agent.js:767-787 | putting the new side of every hunk in place of its old side, at its offset, turns the old lines into the new ones |
| DiffOutput.HunksExactlyWhenChanged | src/commands/agent.js:760 | there is no hunk exactly when every entry of the script is common |
| DiffOutput.GenerateUnifiedDiff | src/commands/agent.js:643-790 | no output exactly for texts equal up to a final newline; otherwise hunks cut out of a shortest script between the lines of the two texts, which show single lines and rebuild the second text, with correct counts |
| RefreshTriggers.MergeKeepsDetail | plugin.js:11077-11102 | a merged trigger has the planning flag if any of its triggers has it, and the latest input, event and file path given |
| RefreshTriggers.MergeKeepsLatestHook | plugin.js:11083 | the hook of a merged trigger is the last one given among its triggers, and "unknown" exactly when none has one |
| RefreshTriggers.MergeKeepsExtra | plugin.js:11079-11082 | every further property has the value of the last trigger that carries it |
| RefreshTriggers.PlanningChangeExactlyWhen | plugin.js:11065-11068 | a trigger is a planning change exactly when its file, or failing that the path of its event, contains ".planning/" |
| RefreshTriggers.MergeKeepsHooks | plugin.js:11069-11076 | up to eight different hooks are all kept, in order of first appearance |
| RefreshTriggers.HooksAreBounded | plugin.js:11069-11076 | never more than eight hooks, none twice, each of some trigger, the latest always among them |
| RefreshTriggers.LastHooksAreKept | plugin.js:11069-11076 | of any number of different hooks the last eight are kept, in order |
| RefreshBackbone.StepKeeps | plugin.js:11125-11203 | every step keeps the coordinator consistent: the requests since the last cut are pending as one merge, with a timer or a rerun due |
| RefreshBackbone.SafetyOverEveryRun | plugin.js:11103-11209 | in every run at most one cycle is in flight and one timer armed, never both; something pending always has a timer or a requested rerun |
| RefreshBackbone.EveryRequestOnce | plugin.js:11130-11142 | in every run each request that has been taken up belongs to exactly one batch, and each batch went to a cycle as the merge of its requests or was dropped by dispose |
| RefreshBackbone.CycleKeepsFlags | plugin.js:11139-11142 | a cycle allows a retry, or reports a planning change, exactly when one of its requests did |
| RefreshBackbone.PendingIsNextCycle | plugin.js:11164-11187 | what is pending is taken up, completely and as one cycle, by the very next timer or end of cycle |
| RefreshBackbone.HistoryGrows | plugin.js:11103-11209 | no step rewrites what has arrived or been taken up |
| RefreshBackbone.StartKeeps | plugin.js:11134-11142 | when a cycle starts something is pending, so the trigger of unknown origin is never made up |
| RefreshCoordinator.Coordinator.RunCycle | plugin.js:11134-11173 | the object clears its timer, returns the cycle in flight if there is one, and otherwise starts one with what is pending, as the step system does |
| RefreshCoordinator.Coordinator.Schedule | plugin.js:11174-11188 | recording, joining the cycle in flight, starting one or arming the timer, as the step system does |
| RefreshCoordinator.Coordinator.Enqueue | plugin.js:11189-11191 | a request, debounced or with the `immediate` option, makes the step of the step system; without a cycle in flight a debounced one arms a new timer and starts nothing |
| RefreshCoordinator.Coordinator.RefreshNow | plugin.js:11192-11197 | an immediate request makes the step of the step system |
| RefreshCoordinator.Coordinator.TimerFires | plugin.js:11184-11186 | a timer makes the step of the step system |
| RefreshCoordinator.Coordinator.CycleEnds | plugin.js:11164-11170 | the end of a cycle, good or bad, makes the step of the step system, with the rerun that was asked for |
| RefreshCoordinator.Coordinator.Dispose | plugin.js:11198-11203 | disposing makes the step of the step system |
| FrontmatterParser.ExtractFrontmatter | plugin.js:7674-7725 | the loop over the lines, with its stack of frames, computes the tree of the specification |
| FrontmatterParser.PopFrames | plugin.js:7687-7689 | frames at least as deep as the line are popped, never the last |
| FrontmatterParser.ParseIsReadable | plugin.js:7675-7725 | whatever the document, the parser returns texts on one line, items without newlines, and keys of key characters, none twice and none `__proto__` |
| FrontmatterNesting.ParseIsNested | plugin.js:7675-7725 | the stack computes a nesting: a key without a value holds the lines that follow it with a larger indentation, blank lines among them, and items and keys fill the innermost such object |
| FrontmatterNesting.BlankLineIsIgnored | plugin.js:7684 | a blank line anywhere in the frontmatter makes no difference |
| FrontmatterNesting.NoteIsIgnored | plugin.js:7683-7723 | neither does a comment line without indentation before such a key |
| FrontmatterNesting.SetFieldExactly | plugin.js:7693-7705 | setting a key changes its value and no other, and a key that is new comes last |
| FrontmatterLines.KeyLineExactlyWhen | plugin.js:7673-7692 | a line sets a key exactly when it is white space, key characters, a colon, white space and the value, which is trimmed |
| FrontmatterLines.ItemLineExactlyWhen | plugin.js:7706-7707 | a line is an item exactly when it is no key line and is, after white space, a dash, a blank and more; the item is the rest without the space at its end and a quote at either |
| FrontmatterValues.QuotesComeOff | plugin.js:7703 | one quote of either kind is taken off each end of a value, whether or not the other end has one |
| FrontmatterValues.BracketsHoldTheirPieces | plugin.js:7699-7701 | a list in brackets holds the texts between its commas without quotes and outer white space, and no empty ones |
| FrontmatterValues.EndExactlyWhen | plugin.js:7672-7679 | frontmatter ends at the first closing fence after at least one character, if the document begins with the opening one |
| FrontmatterLines.KeyLineReads | plugin.js:7690-7693 | any text printed after a key is read from its first character that is no space to the end of its line, trimmed |
| FrontmatterLines.ItemLineReads | plugin.js:7706-7707 | any printed item is read without the space at its end and one quote at either end, or not at all |
| FrontmatterLines.ScalarExactlyWhen | plugin.js:3165-3177 | a text on one line is read back exactly when it is printed in quotes, or is trimmed, has no quote at an end and does not look like a list |
| FrontmatterLines.InlineListExactlyWhen | plugin.js:3126-3127 | a list on one line is read back exactly when no item is empty, holds a comma or line end, or has space or a quote at an end |
| FrontmatterLines.ItemsExactlyWhen | plugin.js:3128-3132 | a list on lines of its own is read back exactly when every item is printed in quotes, or is not empty and has no space at its end and no quote at either |
| FrontmatterLines.TreeExactlyWhen | plugin.js:3119-3181 | a readable tree is read back as it was exactly when all its parts are, at their depth, and nothing is nested deeper than the printer goes |
| Frontmatter.EntriesRead | plugin.js:3119-3181 | every printed line is recognised as the key, scalar, list or item it was printed from, whatever its text |
| Frontmatter.EntriesBuild | plugin.js:7683-7723 | the lines of a tree, applied to the stack of frames, add exactly what is read back of that tree |
| Frontmatter.FenceIsFoundExactlyWhen | plugin.js:7678-7681 | the closing fence found is the printed one exactly when the frontmatter itself holds none |
| Frontmatter.SpliceThenParseExactlyWhen | plugin.js:3182-3195 | parsing a document with a non-empty tree spliced in gives that tree exactly when the tree is printable: every part is read back at its depth, keys are of key characters and not `__proto__`, and no top-level key but the first begins with three dashes |
| Frontmatter.BodySurvivesExactlyWhen | plugin.js:3182-3195 | for every tree, the text after the frontmatter is unchanged exactly when the tree is not empty and what is printed of it holds no closing fence |
| Frontmatter.PrintableKeepsBody | plugin.js:3182-3195 | so a printable tree leaves the text after it alone |
| Frontmatter.SpliceReplacesExactlyWhen | plugin.js:3182-3195 | a second splice leaves no trace of the first, exactly under that condition on the first |
| Frontmatter.EmptyTreeLosesBody | plugin.js:3182-3195 | with an empty tree there is frontmatter exactly when what follows holds another closing fence, it ends at the first of them, and the text after it is never what it was |
| IntentLines.ItemReads | plugin.js:4131-4141 | a printed item line is read as its identifier and text |
| IntentLines.OutcomeReads | plugin.js:4120-4130 | a printed outcome line is read as its identifier, priority and text |
| IntentLines.ChangeReads | plugin.js:4212-4217 | a printed change line is read as its kind, target and description, and not as a milestone |
| IntentLines.MilestoneReads | plugin.js:4204-4211 | a printed milestone line is read as its version and date |
| IntentLines.ReasonReads | plugin.js:4218-4222 | a printed reason line is read as a reason, and as nothing else |
| IntentReading.UserExactlyWhen | plugin.js:4113-4118 | a line names a user exactly when it is a bullet, indented or not, with more than white space after it |
| IntentReading.ItemExactlyWhen | plugin.js:4133-4139 | a line is an item exactly when it is a bullet, the prefix, digits, a colon and the text |
| IntentReading.OutcomeExactlyWhen | plugin.js:4122-4128 | a line is an outcome exactly when it is a bullet, `DO-` and digits, white space, P1, P2 or P3 in brackets, a colon and the text |
| IntentReading.HeaderExactlyWhen | plugin.js:4147-4158 | a line is the header of a topic exactly when it is three number signs, white space or none, and the word in any case |
| IntentReading.MilestoneExactlyWhen | plugin.js:4204 | a line is a milestone exactly when it is three number signs, a version, one of three dashes and a date, with white space between them |
| IntentReading.ChangeExactlyWhen | plugin.js:4212 | a line is a change exactly when it is a bullet with one of three words in bold, white space, a target and a description after a colon; the white space is as long and then the target as short as that allows |
| IntentReading.ReasonExactlyWhen | plugin.js:4218 | a line is a reason exactly when it is an indented bullet with that word, a colon and the text |
| IntentReading.RestOfLineExactlyWhen | plugin.js:4133-4139 | what such a text is: the rest of the line without white space at either end, and not empty unless only white space is left |
| IntentSections.ConstraintsRead | plugin.js:4142-4167 | the printed constraints are read back under their three topics |
| IntentSections.HealthReads | plugin.js:4168-4197 | the printed metrics and prose are read back |
| IntentSections.HistoryReads | plugin.js:4198-4226 | the printed history is read back, with the changes and reasons of every milestone |
| IntentGathering.ObjectiveIsFirstLine | plugin.js:4106-4110 | the first line of the objective is its statement, the others its elaboration, both trimmed |
| IntentGathering.ListsAddUp | plugin.js:4111-4141 | users, outcomes and criteria are what their lines are read as, in order |
| IntentGathering.HeaderGoverns | plugin.js:4142-4167 | constraints before the first header count for nothing; after a header they belong to its topic, up to the next |
| IntentGathering.PartGoverns | plugin.js:4168-4197 | the same for metrics and prose |
| IntentGathering.MilestoneGoverns | plugin.js:4198-4226 | lines before the first milestone count for nothing; a milestone opens an entry with the changes up to the next, each with the last reason after it |
| IntentDocument.SectionAt | plugin.js:4099-4103 | in a document of sections without foreign tags, each section is found with exactly its own lines |
| IntentDocument.SectionMissing | plugin.js:4099-4103 | and a section that is not there is not found |
| IntentSearching.SectionExactlyWhen | plugin.js:4099-4103 | in any document a section is the trimmed text from the first opening tag to the first closing tag after it |
| IntentSearching.LabelExactlyWhen | plugin.js:4093-4098 | a labelled value is the whole run of its characters after the first label that is followed by one |
| IntentGenerated.HeaderFieldsRead | plugin.js:4093-4098 | revision and dates are read from the header lines, not from anything that looks like them |
| IntentRoundTrip.IntentRoundTrip | plugin.js:4078-4355 | for every record whose fields are free of section tags and delimiters, parsing the generated document gives the record back exactly when its objective is not empty |
| IntentTemplate.EmptyDocument | plugin.js:4240-4355 | the document of an empty record, with the wording of its placeholders |
| IntentTemplate.FullDocument | plugin.js:4240-4355 | the document of a record with one of everything, section by section and word by word |
| IntentMd.ParseHistory | plugin.js:4198-4226 | the loop with its entry and change in progress computes the specified history |
| IntentMd.ParseConstraints | plugin.js:4142-4167 | the loop with its current topic computes the specified constraints |
| IntentMd.ParseHealth | plugin.js:4168-4197 | the loop with its current part computes the specified health |
| IntentMd.ParseIntentMd | plugin.js:4078-4239 | the parser computes the specified record, also for an empty text |
| IntentMd.GenerateIntentMd | plugin.js:4240-4355 | the printer computes the specified document |
| NamingRoundTrip.SplitWordsCuts | plugin.js:10714-10716 | the two passes over capitals cut a name exactly before a capital after a small letter or digit, and before the last of several capitals that a small letter follows |
| NamingRoundTrip.PascalReadsBackExactlyWhen | plugin.js:10714-10734 | a PascalCase name splits into its words exactly when no single letter is followed by a word that starts with only one |
| NamingRoundTrip.CamelReadsBackExactlyWhen | plugin.js:10714-10734 | the same for camelCase, from the second word on |
| NamingAdvice.LowerConventionsReadBack | plugin.js:10714-10734 | kebab-case and snake_case names always split into their words |
| NamingAdvice.UpperReadsBack | plugin.js:10714-10734 | so do UPPER_SNAKE_CASE names |
| NamingAdvice.CamelIsRecognised | plugin.js:10699-10713 | two or more words in camelCase are classified as camelCase |
| NamingAdvice.JoinedIsRecognised | plugin.js:10699-10713 | two or more words in a convention with separators are classified as that convention |
| NamingAdvice.PascalIsRecognisedExactlyWhen | plugin.js:10699-10713 | words in PascalCase are classified as such exactly when one of them starts with two letters |
| NamingAdvice.SuggestionIsStable | plugin.js:10699-10734 | for words of two or more letters and then digits, a suggested name is classified as its convention, splits into the same words and converts onward like the original |
| ElisionText.CollectMarkers | plugin.js:9556-9566 | the markers found are all those a left-to-right search finds, in order and without overlap |
| ElisionMarkers.MarkerExactlyWhen | plugin.js:9550-9565 | a marker with this name and condition stands at a position exactly when the text goes on there with its opening, `section:`, the name, `if=`, the condition in quotes and its end, with white space between them |
| ElisionMarkers.WrittenIs | plugin.js:9550-9551 | these delimiters, as they are written |
| ElisionMarkers.MarkersAreDetermined | plugin.js:9556-9566 | a text has only one list of markers that a left-to-right search can find |
| ElisionDocument.DocumentElision | plugin.js:9556-9586 | of a document of plain text and sections, the sections with a false condition go, each with one newline after it; their names are reported in order |
| Elision.PrefixFits | plugin.js:9567-9583 | when a marker is processed the text up to and including it is still the original one |
| Elision.FalseValues | plugin.js:9610-9612 | the values that count as false are undefined, null, NaN, false, 0, the empty text and the text "false" |
| Elision.FalseExactlyWhenKnown | plugin.js:9606-9624 | a condition is false exactly when it has a name for which the enrichment or, failing that, its decisions hold a value that counts as false |
| Elision.ProtoNeedsNoDecision | plugin.js:9614-9620 | the name `__proto__` is false without any decision on it |
| Elision.FlatElision | plugin.js:9567-9586 | for flat sections the result is the document without exactly the false sections and one newline after each |
| Elision.NothingFalseNothingCut | plugin.js:9570 | without a false condition nothing is cut or named |
| ElisionLoop.ElideConditionalSections | plugin.js:9543-9605 | the reverse loop computes that text, the names in document order, their number and the estimate of what was saved |
| FileCache.SetBound | plugin.js:2817-2840 | after storing, the cache is over its bound exactly when the key is new, the cache was full and its oldest key is the empty string |
| FileCache.EvictedIsOldest | plugin.js:2828-2833 | the evicted key is the least recently used one |
| FileCache.SetKeepsRecency | plugin.js:2817-2840 | storing keeps the keys in the order of their last use |
| FileCache.CachedReadIsDirect | plugin.js:3250-3268 | with a coherent cache a cached read returns what a direct read would |
| FileCache.HitExactlyWhen | plugin.js:2785-2813 | the cache answers exactly for a stored file that exists and has not been written since, with what was stored; otherwise only that entry goes |
| FileCache.ReadThenHit | plugin.js:3250-3268 | a file that has just been read is a hit |
| FileCache.LosesPlaceExactlyWhen | plugin.js:2817-2840 | storing costs another entry its place exactly when the key is new, the cache full and that entry the oldest, unless its key is empty |
| FileCache.StepKeeps | plugin.js:2774-2881 | every read, warm-up, invalidation, clearing, write or removal of a file keeps the cache coherent, ordered and within its bound |
| FileCache.CacheIsTransparent | plugin.js:3250-3268 | in every run in which a write raises the time of its file, every cached read is a direct read, the size never exceeds the bound and the keys stand in the order of their last use |
| FileCacheBackend.MapBackend.Get | plugin.js:2785-2813 | a hit moves its entry to the end, a stale or missing file drops it, as specified |
| FileCacheBackend.MapBackend.Set | plugin.js:2817-2840 | storing replaces the entry, evicts when full and appends, as specified |
| FileCacheBackend.MapBackend.WarmUp | plugin.js:2868-2881 | warming stores every existing file and counts them, as specified |
| FileCacheBackend.CachedReadFile | plugin.js:3250-3268 | the read through the cache makes the specified step |
| SqlTable.FilledIsSorted | plugin.js:6739-6747 | rows come back in the order of their keys |
| SqlTable.FilledReadsLast | plugin.js:6645-6657 | inserting with replacement leaves the last row of every key |
| SqlTable.FilledPermutes | plugin.js:6645-6657 | with distinct keys no row is replaced |
| Roadmap.PhaseReadsBack | plugin.js:7431-7443 | a phase the parser can produce is read back from its row as it was |
| Roadmap.ProgressReadsBack | plugin.js:7444-7451 | so is a progress entry |
| Roadmap.CachedAnswersLast | plugin.js:7425-7487 | the rebuilt view answers for the last phase of a number what a fresh parse would for that phase |
| Roadmap.GetPhaseAgreesExactlyWhen | plugin.js:7459-7487 | the rebuilt view answers getPhase like the fresh one for every argument exactly when no repeated number has a first and a last phase that differ |
| Roadmap.DistinctNumbersAgree | plugin.js:7459-7487 | with distinct numbers that is so |
| Roadmap.GetMilestoneIsFirst | plugin.js:7488-7492 | getMilestone answers with the first milestone asked for |
| Roadmap.CurrentIsFirstActive | plugin.js:7493-7495 | currentMilestone is the first active one |
| Roadmap.NoMilestoneExactlyWhen | plugin.js:7488-7495 | and there is none exactly when no milestone is asked for, or active |
| Roadmap.AskedForExactlyWhen | plugin.js:7489-7491 | a milestone is asked for by a part of its name or by its version, in any case |
| Roadmap.MilestonesAgree | plugin.js:7488-7496 | getMilestone and currentMilestone answer like the fresh view for every argument |
| Roadmap.PhasesComeBackSorted | plugin.js:6739-6747 | the rebuilt phases are in text order of their numbers and, with distinct numbers, the same phases |
| RoadmapCache.StepKeeps | plugin.js:7498-7620 | every edit, parse, invalidation, restart or clearing keeps the tables those of the file while their time stamp matches |
| RoadmapCache.ParseAnswersExactlyWhen | plugin.js:7498-7602 | in every run, for any text, a parse gives a view exactly when there is text or a view is held; it answers the milestone questions as a fresh parse of the text it was loaded from, and all questions exactly when it was parsed itself or the repeated numbers of that text agree; which of the two it is |
| RoadmapCache.ParseOfUnchangedFile | plugin.js:7498-7602 | with the file unchanged since no view was held, the same for a fresh parse of the file |
| RoadmapCache.RepeatedNumberAnswersDifferently | plugin.js:7498-7602 | for every text whose repeated numbers differ there is a run whose parse answers otherwise than a fresh one |
| RoadmapStore.RoadmapStore.StoreRoadmap | plugin.js:6637-6694 | the deletes and inserts fill the tables as specified, and a failed transaction leaves them as they were |
| RoadmapStore.RoadmapStore.ParseRoadmap | plugin.js:7498-7602 | memory, then tables, then a fresh parse that is stored, as specified |
| ConfigSchema.PlacesAreDistinct | plugin.js:138-181 | no two keys share a nested place |
| ConfigSchema.OwnerExactlyWhen | plugin.js:138-181 | the place of a key and the key of a place determine each other |
| ConfigMigration.LookupIsFirstPresent | plugin.js:2039-2055 | a value is looked up under its key, then at its nested place, then under the older name of that place, then under the alias |
| ConfigMigration.NormalizedExactly | plugin.js:2056-2064 | every key but one has the first value present, or its default |
| ConfigMigration.ParallelOffExactlyWhen | plugin.js:2058-2062 | parallelization is off exactly when it is set to false, or to an object whose `enabled` is false, null, zero or empty |
| MigrationEffect.EmptyReadsAsDefaults | plugin.js:138-181 | without a configuration every key has its default, and which keys are on and off |
| MigrationEffect.TurnIs | plugin.js:2117-2194 | what becomes of a key: found at one of its places, missing, or avoided because its workspace section does not exist |
| MigrationEffect.ReportedUpTo | plugin.js:2178-2196 | the places reported as migrated and as unchanged are those of the keys missing and found in the configuration given, in the order of the schema |
| MigrationEffect.FieldsUpTo | plugin.js:2178-2196 | a field of a section gets a default exactly when its key is missing; no value of a section is overwritten |
| MigrationEffect.NamesUpTo | plugin.js:2178-2196 | so with the names outside the sections |
| ConfigMigration.MigrateConfig | plugin.js:2178-2196 | the loop computes the migrated configuration and reports the places written and left alone |
| ConfigMigration.OthersReadTheSame | plugin.js:2039-2055 | writing one default changes the value of no other key, unless it is `optimization` and the default is written into it |
| ConfigMigration.MigrationPreservesMeaning | plugin.js:2117-2196 | for every configuration and every key but `optimization`, normalising after migration gives the value it gave before |
| ConfigMigration.OptimizationIsPreservedExactlyWhen | plugin.js:2117-2196 | for `optimization` that holds exactly when every flag inside it could already be read |
| ConfigMigration.MigrationIsIdempotent | plugin.js:2178-2196 | migrating twice is migrating once, and finds nothing left to migrate |
| Notification.DuplicateExactlyWhen | plugin.js:10191-10205 | over every run a call is a duplicate exactly when an earlier call with its key got through less than five seconds before |
| Notification.KeysAgreeExactlyWhen | plugin.js:10191-10193 | two notices share a key exactly when kind and message are the same, as long as no kind holds a colon |
| Notification.PassesAreSpaced | plugin.js:10191-10205 | two calls with one key that both get through are five seconds apart |
| Notification.DroppedExactlyWhen | plugin.js:10206-10215 | a call is dropped exactly when, of all calls that passed since the last reset, too many came within the last minute |
| Notification.AtMostLimitPerMinute | plugin.js:10206-10215 | while the limit stays put and nothing is reset, fewer than limit + 1 calls pass in any minute |
| Notification.HistoryIsLastTwenty | plugin.js:10218-10223 | the history is the last twenty calls, whatever became of them |
| Notification.SuppressedExactlyWhen | plugin.js:10216-10239 | a call that gets through is suppressed exactly when do not disturb was turned on last and it is not critical |
| Notification.CallHandsOn | plugin.js:10216-10239 | a delivered call hands on its own words and time, through the operating system exactly if it is critical or a warning |
| Notification.DeliveryIsConserved | plugin.js:10216-10244 | however the waiting calls interleave, what was produced has been drained, is pending or waits for the operating system, each exactly once |
| Notification.SendsDeliver | plugin.js:10235-10238 | when the waiting calls return, their items are pending, in order |
| Notification.SuppressionIsReported | plugin.js:10248-10263 | every suppressed call is counted in exactly one summary or still to be counted |
| Notifier.Notifier.IsDuplicate | plugin.js:10191-10205 | the check and its clearing out of old keys, as specified |
| Notifier.Notifier.CheckRateLimit | plugin.js:10206-10215 | the check and its sliding window, as specified |
| Notifier.Notifier.Notify | plugin.js:10216-10239 | each call has exactly one outcome and makes the specified step |
| Notifier.Notifier.DrainPendingContext | plugin.js:10240-10244 | everything pending is handed over once, in order |
| Notifier.Notifier.SetDnd | plugin.js:10248-10263 | turning it off returns the number suppressed and queues its summary |
| Attention.SlotsAreDistinct | plugin.js:12505-12518 | the joined keys of two workspaces and kinds never collide |
| Attention.KeysAgreeExactlyWhen | plugin.js:12282-12291 | two events without colons share a key exactly when workspace, kind, phase, plan, task and identity agree, a missing part standing for its fallback |
| Attention.KindsAre | plugin.js:12257-12258 | which kinds are notified and which are logged |
| Attention.MemoryIsLastEmission | plugin.js:12497-12518 | the two maps hold, for every workspace and kind, exactly its last emission |
| Attention.EmittedExactlyWhen | plugin.js:12312-12333 | over every run an event is emitted exactly when the last emission of its workspace and kind is missing or had another key, or five minutes have passed for an intervention kind |
| Attention.RepeatsCoolDown | plugin.js:12312-12333 | two emissions of one key with no other key of their workspace and kind between them are of an intervention kind and at least 300000 ms apart |
| Attention.AnotherKeyResetsTheCooldown | plugin.js:12315-12317 | another key in between lets the first one through again at once |
| AttentionMemory.AttentionMemory.Sync | plugin.js:12538-12551 | deciding, logging, notifying and remembering, as specified |
| Lessons.LatestIsLatest | src/commands/lessons.js:650-656 | no lesson of a group has a later date than the one kept |
| Lessons.LatestIsFirst | src/commands/lessons.js:650-656 | among equally late lessons the first in the store is kept |
| Lessons.KeyIsLowerCore | src/commands/lessons.js:634 | lessons are grouped by their root cause in small letters and without outer white space |
| Lessons.RankOrder | src/commands/lessons.js:410 | critical ranks above high, high above medium, medium above low, and low above anything else |
| Lessons.PlainKeysInOrder | src/commands/lessons.js:632-642 | the groups come in order of first appearance, those that are array indices aside |
| Lessons.IndexExactlyWhen | src/commands/lessons.js:642 | these are the numbers below 2^32 - 1 in decimal notation |
| LessonCompaction.NumbersComeFirst | src/commands/lessons.js:642 | they come first, in increasing order |
| LessonCompaction.CountsTheMerged | src/commands/lessons.js:643-648 | the number of groups merged is that of the groups with two lessons or more |
| LessonCompaction.TakenExactlyWhen | src/commands/lessons.js:632-637 | the command fails exactly when a normalised root cause is `constructor` or `__proto__` |
| LessonCompaction.OnePerRootCause | src/commands/lessons.js:631-686 | the result has exactly one lesson for each normalised root cause, merged from its group |
| LessonCompaction.EveryRootCauseIsKept | src/commands/lessons.js:631-686 | and none is missing |
| LessonCompaction.LatestAndHighestAreKept | src/commands/lessons.js:650-680 | a merged lesson keeps the latest date and the highest severity of its group, both of lessons in it |
| LessonCompaction.RulesAreKeptExactlyWhen | src/commands/lessons.js:658-670 | its rule is every distinct rule of the group, except when the group has one rule and the kept lesson none |
| LessonCompaction.SizesSumToCount | src/commands/lessons.js:682-683 | the recorded sizes of a first compaction add up to the number of lessons |
| LessonCompaction.SizesAreKeptExactlyWhen | src/commands/lessons.js:682-683 | later they add up exactly when no earlier result is merged again |
| LessonCompaction.CompactionIsIdempotent | src/commands/lessons.js:631-688 | compacting twice is compacting once, in the same order |
| LessonCompaction.RepeatChangesNothing | src/commands/lessons.js:615-688 | running the command again changes nothing, whatever the threshold |
| LessonCompaction.Compact | src/commands/lessons.js:615-688 | below the threshold nothing happens; a reserved root cause fails; otherwise the specified store is written |
| AtomicWrite.StepKeepsInv | src/lib/atomic-write.js:20-33 | no step of any writer disturbs the temporary file of another that is in progress |
| AtomicWrite.TargetIsWhole | src/lib/atomic-write.js:11-39 | at every moment of every run, with errors and crashes at any step, the target is as it was or holds the whole content of the writer that renamed last |
| AtomicWrite.StepFrame | src/lib/atomic-write.js:20-33 | a step changes no file but its own temporary file and, when it renames, the target |
| AtomicWrite.DoneExactlyWhenRenamed | src/lib/atomic-write.js:22-38 | a call returns exactly when it has renamed, so a failed one has left the target alone |
| AtomicWrite.NoTempRemains | src/lib/atomic-write.js:28-33 | a temporary file that is left belongs to a call in progress, a crashed one, or one whose clean-up failed |
| AtomicWrite.SharedTempBreaksTheTarget | src/lib/atomic-write.js:18-27 | with one shared temporary name a partial file can become the target |
| AtomicWriter.ProcessesNeverShare | src/lib/atomic-write.js:4-9 | default names of different processes differ, and none is the target |
| AtomicWriter.Disk.WriteFileAtomic | src/lib/atomic-write.js:11-39 | one undisturbed call replaces the target or leaves it alone, touches nothing else and leaves no temporary file unless removing it failed |

## Left out

Within the components:

- Phase scheduling: `waves` is a map here; the original's object would find inherited property
  names such as `constructor` when it looks up an unknown dependency. Entries of `depends_on`
  are texts, as the comparison with the phase numbers needs.
- Unified diff: the output is a list of hunks with labels, counts and marked lines; joining
  them with newlines and writing the numbers out is not modelled.
- Refresh coordinator: what a cycle does between its start and its end, and how its promise
  settles. A cycle body is taken to suspend before it ends, which holds unless invalidating or
  asking for the adapter fails at once, and timer handles are taken to be truthy.
- Frontmatter: the copy of the parser with its own cache, which is keyed by a prefix of the
  text. Nested objects are values on a stack here, where the original's frames refer into one
  tree, and only properties of an object's own are part of it. A tree's entries stand in the
  order JavaScript enumerates them; missing values and values that are no texts are not
  printed here. A document that sets `length`, an index or `__proto__` on an array.
- INTENT.md: numbers are unbounded, where the original's revision loses precision beyond 2^53;
  the current date is a parameter.
- Naming: only ASCII letters change case.
- Conditional sections: the warnings about names that are still mentioned in the result.
- File cache: creation and access times, the hit counters, the research entries and the
  database twin. A warm-up or a store reads a file and its time together.
- Roadmap cache: the patterns that find milestones, phases and progress rows in the text, and
  what getPhase reads out of a section, are parameters, since they are the same in both views.
  One project per database; the requirement rows, the plan tables and the file cache of other
  paths are not part of the model. A parse reads the file and its time together.
- Configuration: property names are an enumeration with a case for all others, and objects
  have no property order. The derived model settings and extra defaults of `normalizeConfig`,
  which are functions of the values modelled here, and `deepMerge`.
- Notifier: the text of the notification sent to the operating system, and logging. The limit
  is a real number, without infinity.
- Attention cooldown: how an event is made from the project state. Calls do not overlap,
  because they are made by one refresh cycle at a time, and the adapter is taken not to fail
  between logging and remembering.
- Lessons: only ASCII letters change case, dates are compared by their characters, which for
  the ISO dates the store writes is what a locale comparison does, and the rewriting of the
  database copy is not modelled.
- Atomic writes: the hook before the rename is taken not to touch the files involved, and
  rename to be atomic. A temporary file that is renamed while another call has it open, which
  needs a shared name, is followed by its path.

Not modelled at all:

- The command router, the installer, and the release, milestone, security, measurement and
  delivery commands: argument dispatch and process calls.
- The environment, audit, decision and cache commands: probing and formatting.
- The codebase index: its work is done by libraries that are not part of this model.
- The single-branch decision rules, help texts and question templates.
- The multiplexer's command line, operating-system notifications, loggers, file watching, the
  database engine and JSON text.
- The cached plan view, which drops fields by design.
