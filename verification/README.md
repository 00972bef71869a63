# CogZ, verified

CogZ keeps a repository's knowledge (observations, rules, knowledge notes) as markdown files with a
hand-written frontmatter, mirrors them in a database of entities and edges, wires itself into agent
configurations, packs context under a token budget, and consolidates observations by merging duplicates
and promoting well-supported ones to rules. This project models the dense algorithms behind that in Dafny
and proves what they promise. `dafny verify dfyconfig.toml` checks everything.

What the code changes step by step is written as methods and classes proved against specification
functions; the properties are lemmas about those functions.

| files | what they model | main results |
|---|---|---|
| `Text`, `Scalars`, `FrontmatterFormat`, `FrontmatterParser`, `FrontmatterLaws` | the frontmatter reader and writer | print then parse is the identity exactly on well-formed keys and trimmed bare strings; every parsed value reprints to a fixpoint after at most one round |
| `NumberTexts`, `FrontmatterReading`, `FrontmatterValues` | reading what people write | either line end on any line; the first wrong line is blamed; quotes, lists, numbers and repeated keys by hand |
| `EntityFile`, `EntityFileLaws`, `EntityFileReading` | entity files | which files are accepted and which field is blamed; write then read returns every field and the exact body exactly when the reader's checks pass and the texts print unchanged |
| `Sorting`, `CommandKeys`, `CommandKeyLaws`, `CommandNames`, `ProgramNames`, `JsonMerge`, `JsonMergeLaws`, `JsonRerunLaws`, `TomlMerge`, `RepairLaws` | the merge and repair of agent configurations | what a merge keeps and adds; what the repair touches; for which patches and binaries a second run is a no-op |
| `HookKeys`, `HookKeyLaws`, `GeneratedPatches`, `GeneratedRerunLaws`, `ConfigureLaws`, `InstallLaws` | what `cogz configure` writes for each harness | after one run on any config every hook runs and the server is wired; for every harness a second run is a no-op on every config exactly when the binary passes a few probe commands; it does wherever cogz is installed under its own name |
| `Compress`, `CompressLaws`, `RegrowthLaws`, `SectionLaws`, `Assemble`, `AssembleLaws` | the context pack pipeline | no entity lost, floor untouched, the fit in closed form, regrowth to the longest text while the budget lasts, a bound on the cost of the whole pack, and when the unsigned total can go below zero |
| `EditDistance` | typo detection | the two rows compute the length of a shortest edit script, a metric |
| `Refs` | edges declared in files | syncing only changed files and referrers of new entities equals syncing every file |
| `ConsolidationState`, `Merge`, `MergeLaws`, `MergeOrder` | merge runs | every `superseded_by` chain ends at an active entity exactly when creation times are distinct |
| `Promote`, `PromoteLaws`, `PromotionEffects`, `PromotionRuns`, `ConsolidationRuns` | promotion runs, and merge and promotion runs in any order | at most one promotion per observation; a fixpoint; the exact support count; chains end active over any mix of runs |
| `EmbeddingCache`, `EmbeddingCacheLaws` | the embedding cache | agreement with the uncached model on any batch, on success and failure |

Six promises of the code turned out false as stated. Each has its exact condition and a concrete failure:

- A string with a leading or trailing Unicode space does not survive frontmatter, because quoting is decided
  on `' '` and control characters while the parser trims all white space (`RoundTripExactly`,
  `BareNoBreakSpaceChangesKind`).
- "Re-running is a no-op" holds for a harness exactly when the binary passes its probes
  (`HarnessRerunsExactly`, `GeneratedRerunExactly`). It does for every path to a file named cogz without
  quotes, spaces or not (`OwnNameReruns`). It fails for a renamed binary such as `/opt/cogz builds/nightly`
  when a server was started by hand as `cogz mcp-stdio`: the second run overwrites what the first one kept
  (`RenamedBinaryRerunChanges`, `RenamedBinaryRerunChangesToml`).
- The unsigned total of a regrowth pass goes below zero for some sections exactly when a text the pass wants
  to show is not tame, since bytes are compared but characters are counted (`PassSafeExactly`). A function of
  ten short lines and a last line of seven wide characters, shown as packs show it, is enough
  (`OwnExcerptUnderflows`).
- Orientation is put first so that dedup prefers it to the same entity found by the search. It does exactly when
  it is at least as relevant, since sorting by relevance comes in between; otherwise the floor loses it
  (`FloorPreferredExactly`).
- On equal creation times a merge run supersedes both entities by each other (`SafeIffDistinctTimes`,
  `TieLosesBoth`).
- The promotion query returns an edge once per chunk of 499 ids it touches while a batch holds 500, so one
  supporter can count as two (`SupportersClosedForm`, `SupportersExactIff`, `OneSupporterCountsTwice`).

## Model

| member | source | states |
|---|---|---|
| Scalars.EscapeIsOnePass | src/files/frontmatter.rs:384-390 | The five chained replacements equal one pass that escapes each character on its own |
| Scalars.UnescapeString | src/files/frontmatter.rs:394-414 | The character loop computes the recursive unescape, including a trailing lone backslash |
| Scalars.UnescapeEscape | src/files/frontmatter.rs:381-414 | Unescaping undoes escaping for every string |
| Scalars.EscapedHasNoLineBreak | src/files/frontmatter.rs:381-390 | An escaped text holds no raw line break, so an entry stays on its line |
| FrontmatterValues.UnescapeShortens | src/files/frontmatter.rs:394-414 | A text is changed by unescaping exactly when a backslash stands before one of the five escapable characters; any other backslash stays |
| Scalars.ParsePrintedInt | src/files/frontmatter.rs:210-213 | Every 64-bit integer is read back from its decimal text |
| NumberTexts.ParseIntExactly | src/files/frontmatter.rs:210-213 | A text reads as a number if and only if it is a sign or none, any zeros, and the digits the number prints as |
| NumberTexts.FloatTextExactly | src/files/frontmatter.rs:215-218 | A text reads as a float if and only if it is a sign or none before inf, infinity or nan in any case, or before digits with at most one point among them and one exponent after them |
| FrontmatterParser.Frontmatter.Insert | src/files/frontmatter.rs:81-87 | Replaces the first entry with the key in place or appends, keeping the order of all others |
| FrontmatterParser.Frontmatter.Remove | src/files/frontmatter.rs:89-91 | Removes every entry with the key and keeps the rest in order |
| FrontmatterValues.PutExactly | src/files/frontmatter.rs:81-87 | An insert changes the value at the first place of the key and nothing else, or appends |
| FrontmatterValues.LookupAfterRemove | src/files/frontmatter.rs:89-91 | After a remove the key is gone and every other key reads as before |
| FrontmatterParser.LookupAfterPut | src/files/frontmatter.rs:77-87 | After an insert the key reads as the new value and every other key as before |
| FrontmatterParser.ParseInlineArray | src/files/frontmatter.rs:237-302 | The quote-aware scanner loop computes the recursive scanner, escapes and unterminated quotes included |
| FrontmatterLaws.ScannerLeavesAtClosingQuote | src/files/frontmatter.rs:246-291 | Inside double quotes the scanner consumes an escaped text whole and leaves the quoted state exactly at the closing quote, whatever follows |
| FrontmatterLaws.InlineArrayRoundTrip | src/files/frontmatter.rs:237-341 | Every nonempty list of strings survives printing as an inline array and scanning back |
| FrontmatterValues.ReadWrittenArray | src/files/frontmatter.rs:237-302 | An array written by hand reads item by item: quotes of either kind protect commas, blanks around items go, an empty item counts unless it is the last, a final comma does not |
| FrontmatterParser.ReadValue | src/files/frontmatter.rs:189-233 | The branch order of value parsing, with its loops, equals the value specification |
| FrontmatterValues.ReadQuotes | src/files/frontmatter.rs:220-229 | Either kind of quotes around any text reads as its unescaped string |
| FrontmatterValues.QuotedExactly | src/files/frontmatter.rs:344-379 | A string is written in quotes if and only if it is not empty and holds syntax or a control character, starts or ends with a space, or its bare text would read as something else |
| FrontmatterLaws.RereadBare | src/files/frontmatter.rs:344-379 | A string left bare is read back as itself exactly when it is trimmed, and never as an array |
| FrontmatterLaws.RereadIffPrintable | src/files/frontmatter.rs:189-341 | A value of any kind survives print and parse if and only if it is not a bare string with something to trim |
| FrontmatterLaws.RereadIsPrintable | src/files/frontmatter.rs:189-341 | Whatever one round of print and parse gives survives from then on |
| FrontmatterLaws.BareNoBreakSpaceChangesKind | src/files/frontmatter.rs:361-379 | The string of a no-break space and `true` is written bare and comes back as a boolean |
| FrontmatterParser.ParseFrontmatter | src/files/frontmatter.rs:153-186 | The line loop returns the entries of the specification, or its error with the same line number |
| FrontmatterLaws.ReadEntryLine | src/files/frontmatter.rs:156-182 | The parser finds key and value of a printed line where the serializer put them |
| FrontmatterLaws.ParseSerialized | src/files/frontmatter.rs:153-341 | For well-formed keys, printed text parses to the same keys in the same order, each with its reread value |
| FrontmatterLaws.ParsedIsWellFormed | src/files/frontmatter.rs:153-186 | Every text that parses yields distinct, nonempty, trimmed keys without colon, newline or leading hash |
| FrontmatterReading.ParseFailsExactly | src/files/frontmatter.rs:153-186 | A text fails to parse if and only if some line is wrong; the error says what is wrong with the first such line and its number from one; blank lines and comments never are |
| FrontmatterReading.LinesDecide | src/files/frontmatter.rs:156-183 | In a text that parses a key has the value its last line gives it, and is absent when no line mentions it |
| FrontmatterParser.SerializeFrontmatter | src/files/frontmatter.rs:305-341 | The write loop emits the specification's text of the entries in order |
| FrontmatterParser.FindClosingDelimiter | src/files/frontmatter.rs:118-129 | The delimiter loop finds the start of the first line that is three dashes up to carriage returns |
| FrontmatterReading.ClosingIsFirst | src/files/frontmatter.rs:118-129 | What is found is the first line that is three dashes up to carriage returns, and nothing is found only where there is none |
| FrontmatterParser.SplitFrontmatter | src/files/frontmatter.rs:112-150 | Splitting as the code does it, missing delimiters and both line endings included |
| FrontmatterReading.SplitsExactly | src/files/frontmatter.rs:112-141 | A file splits if and only if it opens with three dashes and a line end of either kind and a later line is a delimiter |
| FrontmatterReading.SplitSpelled | src/files/frontmatter.rs:112-150 | For either line end on the opening and on the closing line: the text between comes back without its last newline, the body without one leading newline |
| FrontmatterReading.SplitWithoutBody | src/files/frontmatter.rs:112-150 | A closing line that ends the file or has more carriage returns leaves an empty body |
| FrontmatterLaws.SplitWritten | src/files/frontmatter.rs:112-150 | A written file splits into the printed entries and the exact body, whatever dashes or newlines the body holds |
| FrontmatterLaws.ReadWritten | src/files/frontmatter.rs:112-186 | A written file splits and parses to the reread entries and the exact body |
| FrontmatterReading.ReadWithCarriageReturns | src/files/frontmatter.rs:112-186 | With carriage returns on the entries, the opening line, the closing line or any of them, a written file splits and parses to the same entries; the body is exact unless it starts with a newline |
| FrontmatterLaws.RoundTripExactly | src/files/frontmatter.rs:153-414 | Print then parse is the identity if and only if keys are distinct and well formed and no bare string has anything to trim |
| FrontmatterLaws.SerializeStabilises | src/files/frontmatter.rs:153-341 | Every parsed frontmatter reparses after printing; a second round changes nothing; the first changes nothing exactly when bare strings are trimmed |
| EntityFiles.ToFileContent | src/files/entities.rs:163-190 | The insert loop writes the common fields in canonical order and then the extras |
| EntityFiles.WriteEntityFile | src/files/entities.rs:423-439 | Only a text the reader accepts is written, otherwise the reader's error is returned |
| EntityFileLaws.CanonicalShape | src/files/entities.rs:163-186 | The written entries are the seven common fields followed by the extras in their own order, all keys distinct |
| EntityFileReading.WrittenText | src/files/entities.rs:163-190 | The exact text of a written file: field by field in canonical order, extras, a blank line, the body |
| EntityFileReading.ExtrasConcat | src/files/entities.rs:178-190 | The extras are the entries that are no common field, in their order |
| EntityFileLaws.FromCanonical | src/files/entities.rs:193-328 | On written entries the chain of checks accepts exactly the acceptable entities and returns their fields |
| EntityFileReading.AcceptedExactly | src/files/entities.rs:193-332 | Any entries are accepted if and only if each of eight fields is fine; otherwise the error is about the first that is not, and true of it |
| EntityFileReading.AcceptedFields | src/files/entities.rs:193-332 | An accepted file reads as what its entries say; without a status it is active, without references it has none |
| EntityFileLaws.WriteThenReadExactly | src/files/entities.rs:163-328 | Writing then reading returns every field, every extra and the exact body if and only if the checks pass and the texts print unchanged |
| EntityFileLaws.RewriteIsIdentical | src/files/entities.rs:163-190 | The entity read from a written file writes the identical text again |
| Sorting.SortKeepsElements | src/context/compress.rs:49-68 | Sorting only rearranges, duplicates included |
| Sorting.SortSorts | src/context/compress.rs:49-68 | With a total preorder the result is sorted |
| Sorting.SortIsStable | src/context/compress.rs:49-77 | What ties keeps its order |
| Sorting.SortForgetsOrder | src/configure/mod.rs:177-180 | Two string lists sort alike if and only if they are permutations of each other |
| CommandKeyLaws.KeyForgetsOrderExactly | src/configure/mod.rs:160-181 | Two orders of the same arguments give the same key if and only if the program is not cogz or both report the same event, if any |
| CommandKeyLaws.EventReducesToVerb | src/configure/mod.rs:166-177 | A capture-event command of any program named cogz reduces to its verb whatever flags follow |
| ProgramNames.NameInDirectory | src/configure/mod.rs:201-208 | A program is named by its last path part, with either separator, less one .exe |
| ProgramNames.QuotedExeKey | src/configure/mod.rs:166-208 | A quoted path with spaces to cogz.exe is keyed like the bare cogz, whatever the arguments |
| ProgramNames.KeyHasEveryWord | src/configure/mod.rs:166-180 | The key of a command that reports no event is its words and its program name, sorted, none missing |
| CommandKeyLaws.KeysSurviveIffUsable | src/configure/apply.rs:129-135 | The rewrite keeps the dedup key of every command if and only if three probe commands built from the binary key as cogz |
| CommandKeyLaws.PlainPathIsUsable | src/configure/mod.rs:186-204 | Every path to a program named cogz without white space and quotes passes the probes |
| CommandKeyLaws.RewriteSettlesExactly | src/configure/apply.rs:129-135 | A second rewrite changes no command if and only if the binary is not itself a bare-cogz command line |
| CommandKeyLaws.RewriteKeepsNeedle | src/configure/mod.rs:210-222 | A command mentioning mcp-stdio still does after the rewrite |
| JsonMerge.MergeJson | src/configure/mod.rs:86-113 | The recursive merge that updates fields and arrays in place equals the merge specification, in whatever order keys are visited |
| JsonMerge.UpgradeJson | src/configure/apply.rs:137-155 | The in-place walk rewrites exactly the command strings, at every depth |
| JsonMerge.ConfigureFile | src/configure/apply.rs:16-33 | One run is the merge followed by the repair |
| JsonMergeLaws.AppendCovers | src/configure/mod.rs:104-110 | The base array is a prefix of the result and every patch item is covered in it |
| JsonMergeLaws.AppendsOnlyUncovered | src/configure/mod.rs:104-110 | Every appended item comes from the patch and was covered by nothing before it |
| JsonMergeLaws.AppendsInOrder | src/configure/mod.rs:104-110 | Appended items keep the order of the patch, and every patch item left out is covered |
| JsonMergeLaws.GroupCoversFlatIff | src/configure/mod.rs:115-158 | A matcher group covers a flat hook entry if and only if the matchers mean the same and one of its commands has the entry's key |
| ProgramNames.FlatCoversExactly | src/configure/mod.rs:118-158 | A flat entry covers another if and only if matcher and key agree; timeouts and other settings do not matter |
| ProgramNames.OnlyPlainGroupsCover | src/configure/mod.rs:135-158 | A group that says more than a matcher and commands covers itself and is covered by itself alone |
| JsonMergeLaws.MergeInstalls | src/configure/mod.rs:86-113 | After a merge everything the patch asks for is there, recursively, or an existing cogz server stands for it |
| JsonMergeLaws.MergeIsNoOpIffInstalled | src/configure/mod.rs:86-113 | Merging a patch changes nothing if and only if the patch is installed |
| JsonMergeLaws.MergeKeepsBase | src/configure/mod.rs:86-113 | A wired server is untouched by a server patch; otherwise, where shapes agree, every base key and item persists in place and everything else is the patch's, recursively |
| JsonMergeLaws.UpgradeKeepsHookKey | src/configure/mod.rs:135-158 | For a usable binary the repair changes the hook identity of no value |
| JsonMergeLaws.UpgradeKeepsInstalled | src/configure/apply.rs:28-31 | For a usable binary what is installed stays installed through the repair |
| JsonMergeLaws.UpgradeSettles | src/configure/apply.rs:137-155 | Repairing twice is repairing once |
| RepairLaws.JsonRepairExactly | src/configure/apply.rs:137-155 | At any depth the repair changes exactly the string under a command that no other command is above, and keeps every path |
| RepairLaws.TomlRepairExactly | src/configure/apply.rs:157-177 | The same on TOML, through tables and arrays of tables |
| JsonMergeLaws.UsableRerunIsNoOp | src/configure/apply.rs:16-33 | For a usable binary a second run on any config and any repaired patch changes nothing |
| JsonMergeLaws.RerunIsNoOpIffUsable | src/configure/apply.rs:16-33 | For arbitrary patches the repair leaves alone, generated or not: a second run is a no-op on all configs if and only if the binary is usable |
| JsonMergeLaws.SpacedPathIsUnusable | src/configure/mod.rs:183-197 | A path with a space in a directory name is not usable for arbitrary patches |
| JsonRerunLaws.ObjectRerunsExactly | src/configure/apply.rs:16-33 | An object patch without a command reruns as a no-op on all configs if and only if the rewrite settles and each of its fields does |
| JsonRerunLaws.UpgradedHookKey | src/configure/mod.rs:135-158 | The repair keeps a hook element's shape, matcher and number of commands, and rewrites each of its keys, for any binary |
| JsonRerunLaws.HookListRerunsExactly | src/configure/mod.rs:104-128 | A list of one-command hooks reruns as a no-op on all configs if and only if the rewrite settles and changes no command that has one of their keys |
| HookKeyLaws.StableExactly | src/configure/hook_payloads.rs:11-13 | For every binary and every generated hook, the rewrite changes no command with the hook's key if and only if three probe commands say so |
| GeneratedRerunLaws.EntryRerunsExactly | src/configure/harnesses.rs:36-38 | The generated server entry reruns as a no-op on all configs if and only if a binary recognised alone is recognised in a probe command |
| GeneratedRerunLaws.HooksRerunExactly | src/configure/hook_payloads.rs:11-111 | A table of generated hooks, grouped or flat, reruns as a no-op on all configs if and only if the rewrite settles and every hook passes its probes |
| InstallLaws.EveryHookRuns | src/configure/hook_payloads.rs:11-111 | After one run on any config every generated hook stands under its event with its matcher and reports its verb to cogz |
| InstallLaws.EveryHookRunsInFile | src/configure/harnesses.rs:51-115 | The same in the files that keep hooks under a field of their own |
| InstallLaws.EveryHarnessIsWired | src/configure/harnesses.rs:189-290 | Every harness, in either scope, has a patch that wires each of its hooks into any config |
| InstallLaws.ServerRuns | src/configure/harnesses.rs:150-174 | After one run on any config the servers hold one that runs cogz |
| ConfigureLaws.HarnessRerunsExactly | src/configure/mod.rs:7-13 | For each harness and scope a second run changes none of its JSON files, whatever they held, if and only if the binary passes the harness's probes |
| ConfigureLaws.OwnNameReruns | src/configure/mod.rs:7-13 | For every path to a file named cogz without quotes a second run changes nothing, for every harness, on JSON and TOML |
| ConfigureLaws.SpacedPathReruns | src/configure/mod.rs:7-13 | In particular for an ordinary path with a space in a directory name |
| ConfigureLaws.RenamedBinaryRerunChanges | src/configure/apply.rs:16-33 | For a renamed binary under a directory like `cogz builds`, the first run keeps a hand-started server and the second one changes it |
| ConfigureLaws.RenamedBinaryRerunChangesToml | src/configure/apply.rs:34-53 | The same on TOML |
| TomlMerge.MergeTomlDoc | src/configure/mod.rs:231-251 | The in-place table merge equals its specification, in whatever order keys are visited |
| TomlMerge.UpgradeToml | src/configure/apply.rs:157-177 | The in-place walk rewrites command strings in tables and arrays of tables |
| TomlMerge.MergeIsIdempotent | src/configure/mod.rs:231-251 | Merging a patch a second time changes nothing, for all tables and patches |
| TomlMerge.MergeKeepsLeaves | src/configure/mod.rs:225-251 | A leaf at any path is exactly what it was before the merge |
| TomlMerge.MergeKeepsBase | src/configure/mod.rs:231-251 | Wired servers are untouched; otherwise the keys are those of both sides, a key of one side has that side's item to the last leaf, and under a shared key only an empty place or a table within a table takes anything from the patch |
| TomlMerge.FreshConfig | src/configure/harnesses.rs:176-185 | A run on an empty config writes the generated servers as they are |
| CommandNames.NameSurvivesIffRecognised | src/configure/mod.rs:186-204 | Every command named cogz is still named so after the rewrite if and only if two probe commands are |
| TomlMerge.RerunIsNoOpExactly | src/configure/apply.rs:34-53 | For arbitrary patches, re-running on TOML is a no-op for all tables if and only if the binary is recognised and is not a bare-cogz command line |
| TomlMerge.GeneratedRerunExactly | src/configure/harnesses.rs:176-185 | For the generated servers patch it is a no-op on all tables if and only if a binary recognised alone is recognised in a probe and is no bare-cogz command line |
| EditDistance.EditDistance | src/doctor/checks.rs:560-576 | The two-row loop returns the length of a shortest insert, delete and substitute script |
| EditDistance.DistanceIsLowerBound | src/doctor/checks.rs:560-576 | No edit script is cheaper than the recurrence |
| EditDistance.BestScript | src/doctor/checks.rs:560-576 | A script of exactly that cost exists |
| EditDistance.DistanceIsShortest | src/doctor/checks.rs:560-576 | The recurrence is attained by some script and undercut by none |
| EditDistance.DistanceZeroIffEqual | src/doctor/checks.rs:560-576 | The distance is zero exactly on equal strings |
| EditDistance.DistanceSymmetric | src/doctor/checks.rs:560-576 | The distance does not depend on the order of its arguments |
| EditDistance.DistanceTriangle | src/doctor/checks.rs:560-576 | The triangle inequality, by composing scripts |
| Compress.PartitionDups | src/context/compress.rs:82-99 | The dedup loop splits into the kept and dropped sections of the specification |
| SectionLaws.OverlapsExactly | src/context/compress.rs:104-131 | Two sections are duplicates if and only if they share a trimmed line of more than three bytes and three times the shared ones are at least the lines of both sides together |
| SectionLaws.ReindentedCopyIsDropped | src/context/compress.rs:82-116 | Of two sections that differ in indentation only, at most one is kept |
| Compress.CompressTail | src/context/compress.rs:177-188 | The in-place loop excerpts exactly the sections past the head, each by its source |
| SectionLaws.ExcerptedByRank | src/context/compress.rs:177-188 | The first twenty sections and unlisted sources are left alone; past them each source shows its own number of lines |
| Compress.FitBudget | src/context/compress.rs:136-165 | The budget loop computes the recursive fit |
| Compress.TruncateToTokens | src/context/compress.rs:259-269 | A truncated text never costs more tokens than asked and is never longer than the original |
| SectionLaws.TruncatedText | src/context/compress.rs:259-269 | A text that does not fit becomes its own beginning and an ellipsis, exactly as long as allowed |
| SectionLaws.CutShowsHead | src/context/compress.rs:148-156 | The section the budget cuts keeps all but its content, of which it shows the beginning in exactly the tokens its title leaves |
| Compress.RelaxOnePass | src/context/compress.rs:208-241 | One in-place pass equals the recursive pass, the running total is the true token sum when it ends, and a flag tells whether a subtraction went below zero |
| Compress.RelaxCodeSections | src/context/compress.rs:208-241 | Both in-place passes, with the early return, equal the two recursive passes, and a flag tells whether a subtraction went below zero |
| CompressLaws.PartitionLaw | src/context/compress.rs:71-125 | Dedup is an order-preserving split; kept sections are pairwise below the threshold; each dropped one overlaps a kept one |
| CompressLaws.KeptIffNoDupBefore | src/context/compress.rs:82-111 | Each section is kept if and only if it is no duplicate of the sections kept before it |
| CompressLaws.ApartPrefixSurvives | src/context/compress.rs:82-99 | A leading run of pairwise different sections survives dedup whole |
| CompressLaws.ExcerptShowsHead | src/context/compress.rs:245-255 | An excerpt's lines are the first lines as they are and one more that counts the rest, unless a shown line ends in a carriage return |
| CompressLaws.FitClosedForm | src/context/compress.rs:136-165 | The fit keeps the longest whole prefix, cuts at most one section, then keeps exactly the costless ones and drops the rest |
| CompressLaws.WholeIsLongest | src/context/compress.rs:136-165 | That prefix fits, and one section more would not |
| CompressLaws.FitRespectsBudget | src/context/compress.rs:136-165 | The kept total exceeds the budget at most by what the cut section's title exceeds the remainder by; every dropped section costs a token |
| CompressLaws.FitConservesIds | src/context/compress.rs:136-165 | The fit loses no entity and invents none |
| CompressLaws.RelaxLaw | src/context/compress.rs:208-241 | Regrowth ends at most at the larger of budget and start, shrinks nothing, and changes only mapped sections, to forms of their full text |
| RegrowthLaws.RegrowthIsComplete | src/context/compress.rs:208-241 | Either the budget is used up or every mapped section ends with the longest of its content, its excerpt of 3, 30 or 40 lines, and its full text, which is shown whole where it is longest; for all sections the next row names, and for ASCII contents and excerpts of any texts |
| RegrowthLaws.OwnExcerptsAreReady | src/context/compress.rs:208-241 | In any script the above holds of sections that show excerpts of their own full texts, once or twice shortened, if these have no carriage return |
| RegrowthLaws.ShownOrFullExactly | src/context/compress.rs:221-240 | For arbitrary contents: whatever pass, full text and budget, a section is shown as wanted or cut to use up the budget, if and only if its bytes and its characters count as equally many tokens |
| RegrowthLaws.ExcerptsComeFirst | src/context/compress.rs:194-241 | No section grows past its excerpt while another lacks its own |
| RegrowthLaws.PassShows | src/context/compress.rs:221-240 | A pass serves sections from the front until one uses up the budget; the rest stay as they were |
| CompressLaws.CandidateSafeExactly | src/context/compress.rs:219-238 | For a source and a full text, no section and headroom makes the subtraction underflow if and only if no text of fewer bytes costs more tokens than the one the pass wants to show |
| CompressLaws.PassSafeExactly | src/context/compress.rs:208-241 | No pass over any sections with any budget underflows if and only if that holds of every text it may want to show |
| CompressLaws.TameRelaxIsSafe | src/context/compress.rs:208-241 | When it holds for both passes the whole regrowth is free of underflow |
| CompressLaws.OwnExcerptUnderflows | src/context/compress.rs:234-237 | A function shown by its first ten lines whose last line is wide underflows in the first pass for any budget left |
| Assemble.AssembleContext | src/context/assemble.rs:141-302 | The whole pipeline after retrieval delivers the sections, pointers, sizes, sources and notes of its specification |
| Assemble.DemoteDupes | src/context/assemble.rs:220-233 | The demotion loop keeps excerpts that are no longer duplicates and sends the others to the overflow |
| SectionLaws.DemotionLaw | src/context/assemble.rs:210-231 | Regrown duplicates become four-line excerpts, in order: each duplicates nothing before it and is kept, or duplicates something kept and goes to the overflow |
| Assemble.AddOverflowIndex | src/context/assemble.rs:238-276 | The index loop stops at the first line that does not fit and points to exactly the entities it names |
| AssembleLaws.NoEntityIsLost | src/context/assemble.rs:166-236 | Each input id is in the pack or in the overflow, as often as it came in |
| AssembleLaws.BaselineShipsUnmodified | src/context/assemble.rs:188-236 | In a tiered pack the baseline sections that survive the first dedup ship first, unmodified and in order, unless they have full content to regrow to |
| SectionLaws.TiersInOrder | src/context/assemble.rs:192-200 | The floor and the rest keep the order of the sections, each of its tier |
| AssembleLaws.DedupPrefersPriority | src/context/compress.rs:71-99 | Whatever dedup drops overlaps a kept section that may precede it in the priority order |
| AssembleLaws.FloorPreferredExactly | src/context/assemble.rs:165-191 | Of an entity in the floor and the same one found by the search, the floor's copy stays if and only if it is at least as relevant |
| AssembleLaws.PriorityOrder | src/context/compress.rs:38-68 | A query's sections come by relevance first, a session's by type first, each with the other key and then the id as tie-breakers |
| SectionLaws.SourceOrder | src/context/compress.rs:26-45 | Identity comes before rules, knowledge, code, observations and everything else |
| AssembleLaws.IndexTokensBelowCost | src/context/assemble.rs:250-262 | The charges per line cover the tokens of the joined lines and the title whatever the rounding |
| AssembleLaws.IndexStaysWithinBudget | src/context/assemble.rs:239-277 | With the index the total stays below the budget, without it the pack is unchanged; the index takes as many entries as fit |
| AssembleLaws.IndexIsMostRelevant | src/context/assemble.rs:243-262 | The index names at most 25 entities, each at least as relevant as every overflow entity left out |
| AssembleLaws.IndexSize | src/context/assemble.rs:243-250 | Up to twenty-five overflow entries compete for the index |
| AssembleLaws.PackCost | src/context/assemble.rs:166-277 | The delivered pack costs at most the larger of budget and floor, plus the title excess of one cut section, plus the notes of demoted excerpts |
| CompressLaws.ExcerptCost | src/context/compress.rs:245-255 | An excerpt costs at most its text and its note |
| AssembleLaws.PointersAreOverflow | src/context/assemble.rs:239-277 | Every entity the index names is in the overflow |
| AssembleLaws.SelectedSourcesExact | src/context/assemble.rs:278-288 | The delivered types are listed once each, all of them, without the index itself |
| SectionLaws.NotesExactly | src/context/assemble.rs:162-231 | A pack notes every section that lost its place or content, with source, title and the reason, and nothing else |
| SectionLaws.IndexText | src/context/assemble.rs:236-272 | Line by line the index names source, title and id of its entries |
| Refs.DeclaredTargets | src/files/refs.rs:22-35 | Holds exactly the targets the file declares under some edge type |
| Refs.Storage.InsertSkipFkViolation | src/storage/edges.rs:128-155 | Adds the edge when both endpoints exist and otherwise changes nothing |
| Refs.Storage.DeleteBySourceAndType | src/storage/edges.rs:61-71 | Removes exactly the edges of that source and type |
| Refs.AfterSync | src/files/refs.rs:38-135 | After a sync the file's own edges are exactly the declared ones with both ends present, and every other edge is as before |
| Refs.ListedTargetsHaveEdges | src/files/refs.rs:43-135 | After a sync a file has exactly an edge to each present target listed under the field of that edge type |
| Refs.Storage.SyncReferences | src/files/refs.rs:43-135 | The deletes and insert loops leave exactly that table |
| Refs.Storage.ReferencePass | src/files/sync.rs:369-388 | The second pass of a sync re-syncs the changed files and the referrers of created entities, and only those |
| Refs.FullPassIsExact | src/files/sync.rs:360-388 | After a pass over all files an owned edge exists if and only if its file declares it and both ends exist, in any order of files |
| Refs.SelectiveEqualsFullIff | src/files/sync.rs:360-388 | Skipping files gives the full result if and only if every skipped file was up to date |
| Refs.OutdatedIffRefersToNew | src/files/sync.rs:360-381 | New rows outdate an unchanged file if and only if it declares one of them |
| Refs.ReferencePassIsComplete | src/files/sync.rs:360-388 | The selective pass equals the full one, and picks among unchanged files exactly those whose edges change |
| Refs.AddingOneEntityStaysExact | src/files/refs.rs:18-135 | From an exact table, adding an entity and re-syncing its file and its referrers gives an exact table again, structural edges untouched |
| ConsolidationState.Store.SyncSingleFile | src/files/sync_ops.rs:42-114 | A changed file sets its row's status and edges, an illegal transition changes nothing, a new file gets a row |
| ConsolidationState.SyncFileExactly | src/files/sync_ops.rs:42-114 | A changed file is refused if and only if its status may not follow the old one; otherwise exactly its row and its edges change |
| ConsolidationState.Store.SupersedeEntity | src/consolidate/merge.rs:268-347 | The transition is checked before the file is written, and a failure leaves what was done up to then |
| ConsolidationState.SupersedingEffect | src/consolidate/merge.rs:268-347 | A completed attempt moves one row and leaves it exactly one link; any other leaves all rows and edges; other entities are never touched |
| ConsolidationState.SupersededFile | src/consolidate/merge.rs:268-347 | The file of the superseded entity gets status, link and time and keeps everything else, even where syncing fails; no other file changes |
| ConsolidationState.StatusLattice | src/storage/status.rs:16-43 | Rejected and superseded entities may only be pruned, active and stale ones anything else; pruned and unknown statuses go nowhere |
| Merge.FindMergeCandidates | src/consolidate/merge.rs:137-247 | The nested loops with their skips and the seen set compute the selection specification |
| Merge.RunMerge | src/consolidate/merge.rs:53-118 | Dry runs and runs without a model change nothing; otherwise the loop merges in order and reports the completed pairs |
| MergeLaws.CandidatesExact | src/consolidate/merge.rs:171-240 | A pair is a candidate if and only if it orients two close observations the model confirms; none is listed twice |
| MergeLaws.DeniedRunIsNoOp | src/consolidate/merge.rs:205-226 | A model that denies every pair, or none, leaves the database alone |
| MergeOrder.CandidatesInScanOrder | src/consolidate/merge.rs:171-240 | Candidates come in the order the scan discovers them, observation by observation, nearest neighbour first |
| MergeLaws.CandidateEnds | src/consolidate/merge.rs:194-203 | A survivor is another batch entity created no later, strictly earlier on distinct times |
| MergeLaws.MergedAtMostOnce | src/consolidate/merge.rs:89-118 | No entity is superseded in two reported merges, under any failures |
| MergeLaws.SupersededIsFrozen | src/consolidate/merge.rs:264-284 | Once superseded, an entity's row and edges do not change for the rest of the run |
| MergeLaws.FirstPairWins | src/consolidate/merge.rs:89-118 | Without failures an entity ends superseded with one link, to the survivor of the first pair naming it, or untouched |
| MergeOrder.ReportedExactly | src/consolidate/merge.rs:89-118 | When events are recorded, an entity became superseded in the run if and only if a reported pair says so, linked to that pair's survivor |
| MergeOrder.ReportedAreRecorded | src/consolidate/merge.rs:89-118 | A merge whose event was not recorded is not reported |
| MergeLaws.SettledEndsActive | src/consolidate/merge.rs:53-118 | Where every link goes to an older entity or to a rule, following links ends at an active entity |
| MergeLaws.MergeRunIsSafe | src/consolidate/merge.rs:53-118 | Any run on a batch with distinct times, with any answers and failures, keeps every chain ending at an active entity |
| ConsolidationRuns.RunsAreSafe | src/consolidate/promote.rs:229-240 | Over merge and promotion runs in any order, with any answers and failures, every chain of superseded_by ends at an active entity |
| MergeLaws.TieLosesBoth | src/consolidate/merge.rs:199-203 | On equal times two close observations end superseded by each other, with no active end |
| MergeLaws.SafeIffDistinctTimes | src/consolidate/merge.rs:185-247 | Every possible run on a batch is safe if and only if its creation times are distinct |
| Promote.GetEdgesInvolvingBatch | src/storage/graph.rs:59-103 | The chunk loop concatenates the rows of consecutive chunks of 499 ids |
| Promote.FindPromotionCandidates | src/consolidate/promote.rs:81-144 | The grouping and filtering loops compute the candidate specification |
| Promote.RunPromotion | src/consolidate/promote.rs:33-70 | A dry run changes nothing; otherwise each candidate is attempted in order and the completed ones are reported |
| Promote.PromoteOne | src/consolidate/promote.rs:150-248 | The rule file is written and synced before its source is superseded, and a later failure undoes nothing |
| PromoteLaws.EdgesInvolvingCount | src/storage/graph.rs:72-101 | Each edge is returned once per chunk it touches |
| PromoteLaws.SupportersClosedForm | src/consolidate/promote.rs:131-142 | The count compared with the threshold is the supporters plus those in the other chunk |
| PromoteLaws.SupportersExactIff | src/consolidate/promote.rs:131-142 | It is the true number of supporters if and only if none sits in the other chunk, hence always up to 499 ids |
| PromoteLaws.OneSupporterCountsTwice | src/consolidate/promote.rs:81-144 | In a full batch of 500 a single supporter can count as two |
| PromoteLaws.CandidatesExact | src/consolidate/promote.rs:114-144 | A batch observation is a candidate if and only if nothing else is derived from it and that count reaches the threshold; its list holds exactly its supporters |
| PromoteLaws.CandidatesInOrder | src/consolidate/promote.rs:114-144 | Candidates come in the order of the batch |
| PromoteLaws.PromotingEffect | src/consolidate/promote.rs:150-248 | A landed promotion adds one rule, derived from the observation and supporting its supporters; no derivation is lost |
| PromoteLaws.LandedRuleReplacesSource | src/consolidate/promote.rs:250-306 | The source of a landed rule ends superseded with one link, to the rule |
| PromotionEffects.PromotedFiles | src/consolidate/promote.rs:150-306 | The rule file has the observation's content and title, confidence 0.7, no validations, its supporters and its origin; the observation's file is marked superseded by it and keeps the rest; no other file changes |
| PromotionEffects.ReportedInOrder | src/consolidate/promote.rs:33-70 | Every landed promotion is reported in order unless recording it failed, with its rule and the size of its support |
| PromotionRuns.PromotionRunEffect | src/consolidate/promote.rs:33-70 | What one run lands was unpromoted before and is not after, each observation once |
| PromotionRuns.PromotedAtMostOnce | src/consolidate/promote.rs:111-142 | Over any sequence of promotion and merge runs with any failures no observation is promoted twice, and promotions plus unpromoted observations never exceed the start |
| PromotionRuns.RunsReachFixpoint | src/consolidate/promote.rs:163-237 | When rules land, at most as many runs find a candidate as there were unpromoted observations |
| EmbeddingCache.Cache.Get | src/embed/cache.rs:42-50 | Returns the vector under model name and hash and moves exactly one counter |
| EmbeddingCache.Cache.Put | src/embed/cache.rs:53-58 | Stores the vector under model name and hash and changes no other entry |
| EmbeddingCache.Cache.EmbedCached | src/embed/cache.rs:63-78 | One text costs at most one model call of that text alone, and nothing is stored on failure |
| EmbeddingCache.Cache.EmbedBatchCached | src/embed/cache.rs:83-117 | The model sees exactly the uncached subsequence in one call or none; hits and misses grow by the batch; nothing is stored on failure |
| EmbeddingCache.Cache.ScanTexts | src/embed/cache.rs:88-99 | The first loop finds cached vectors and the places and texts of the others |
| EmbeddingCache.Cache.StoreFresh | src/embed/cache.rs:110-113 | The second loop puts each fresh vector at the place its text came from |
| EmbeddingCacheLaws.BatchAgrees | src/embed/cache.rs:80-117 | For any batch, repeats included, every text gets the model's own vector; agreement is kept on success and failure; after a success all its texts are cached |
| EmbeddingCacheLaws.BatchIsOneByOne | src/embed/cache.rs:60-117 | With a model that does not fail a batch returns and stores what its texts would one at a time |
| EmbeddingCacheLaws.RightForAllModelsIff | src/embed/cache.rs:15-19 | A second text is answered rightly for every model if and only if its hash differs from the first one's or it is the same text |

## Left out

- Files, locks, backups, directories, git, processes and clocks: their outcomes are parameters (fault points, ids, times).
- SQLite, its text and its transactions: tables are sets and maps; a query result is any listing that answers it exactly.
- UUID, RFC 3339 and SHA-256: parameters of the lemmas; hashes need be injective only on the texts in use.
- Float values: a float is the text its debug form prints; reading one is a parameter of which only idempotence is asked. Relevance is its place in the total order of floats, the Jaccard test is done in integers.
- Error wording: messages are a datatype; line numbers are kept.
- The text form of JSON and TOML: trees are merged, their parsing, printing, comments and key order are not modelled.
- Section fields that no modelled stage reads (graph paths, drift counts, file paths).
- Compress.RelaxOnePass: does not stop where a checked build would; it reports the underflow and goes on with the total a wrapping build ends with.
- Compress.RelaxCodeSections: the same, over both passes.
- EmbeddingCache.Cache.Get: does not model poisoned locks or the wrap of the 64-bit counters.
- Refs.Storage.SyncReferences: does not model edge weights and creation times, which are not part of the key.
- Refs.Storage.ReferencePass: does not model the first pass of a sync; the changed and created ids are its inputs.
- Merge.RunMerge: does not model the similarity in the reason text, nor the NLI scores behind a confirmation.
- Promote.RunPromotion: does not model the reason text, the secret scan (one of the ways a write fails) or recorded events.
- ConsolidationState.Store.SyncSingleFile: does not model the skip of a file whose hash and status match its row, since consolidation only syncs files it has just changed, nor the tombstone check.
- Canonical files are kept as parsed entities in the consolidation model; that writing and reading returns them is `WriteThenReadExactly`.
- Concurrency: every run is modelled alone.
- Slugs, file paths, category names, the command line, the index, search, mining and the other doctor checks.
- Where code and comments differ the code is followed: a closing delimiter line may end in carriage returns but not in other white space, and one with two of them loses the body; merges are confirmed by the stronger entailment direction, not by both; supporters may be rules, not only observations; quoting does not look at a leading digit as such.
