# documentation-bot: the repository analyzer and the LLM-call budget

This project models, in Dafny, the rule-bearing core of `documentation_bot.py`:

- **`RepositoryAnalyzer`**:
  - the walk over a repository (`analyze`);
  - the ignore policy (`_should_ignore_file`): ignored directory names, the 1 MiB size cap, and the null byte in the first 1024 bytes;
  - the per-file classification (`_analyze_file`): entry-point and configuration names, the suffix-to-language table, the project type, and the dependency lines of `requirements.txt`.
- **`DocumentationGenerator`'s budget**: the counter `llm_calls_made`, the cap `max_llm_calls`, the refusal in `_call_llm`, and the guard at the head of every `generate_*` step.
- **`DocumentationBot`**: the constructor's validation of its arguments, and `generate_documentation`, which chains the analysis, the optional README and the four documentation files through one shared budget.

The file system is not modelled. Each walked path is a `FileEntry` value carrying every answer the analyzer would get from the file system:
- `parts`;
- the relative path;
- `is_file()` (`None` when it raises);
- the `stat()` size (`None` when it raises);
- the bytes read (`None` when open or read raises);
- the `read_text()` content (`None` when it raises).

The walk order of `rglob('*')` is the order of the input sequence.

Python's string and path built-ins are written out in `Text` and `Paths`:
- `str.lower` (ASCII letters);
- `str.strip`, using the code points of `str.isspace`;
- `str.split`, `str.startswith` and `in`;
- `PurePath.suffix`, using `rfind` and the "inner dot" rule.

Files, one module each:
- `wrappers.dfy`: Option, Result and Outcome.
- `lists.dfy`: filter, flat-map and first-match, with their laws.
- `text.dfy`: the string built-ins, and where stripped and split pieces sit in the text.
- `paths.dfy`: suffix and name.
- `entries.dfy`: the walked entry, its file name and file type.
- `ignore_policy.dfy`
- `classification.dfy`
- `analyzer.dfy`: the result record as a class, and the functional `Scan` it is proved against.
- `scan_properties.dfy`: what a walk produces, field by field, stated without the loop.
- `generator.dfy`: the budget, as a pure run of steps and as the class.
- `bot.dfy`

Two behaviours of the code are worth knowing, because they are easy to miss:
- Only two reads are guarded: the open and read at lines 88-94, and the `read_text` of `requirements.txt` at lines 136-143, whose failure adds no dependency. An `is_file()` that raises at line 57 (for example on a permission error, even inside `node_modules`) ends the walk with `IsFileFailed`. A `stat()` that raises at line 84 ends it with `StatFailed`. Neither file is skipped.
- The directory test looks at every component of `file_path.parts`, which begin with the parts of the repository path as it was given. When that path is absolute and runs through a directory named `venv`, every file is dropped. A path given as `.` contributes no parts, so nothing above it is tested.

The bot keeps the generator it creates on first use. A second `generate_documentation` on the same bot therefore starts from the calls already counted.

## Model

| member | source | states |
|---|---|---|
| Paths.LastIndexOf | documentation_bot.py:62 | `rfind`: a found index holds the character and none follows it; `None` only when the character is absent |
| Paths.Suffix | documentation_bot.py:62 | the suffix is never longer than the name |
| Paths.SuffixSpec | documentation_bot.py:62 | the suffix is the tail from the last dot whenever that dot is neither first nor last; a non-empty suffix is a proper tail of the name, a dot followed by at least one non-dot |
| Paths.NoInnerDotNoSuffix | documentation_bot.py:62 | a name with no dot strictly inside it has no suffix |
| Paths.DotFileHasNoSuffix | documentation_bot.py:62 | `.gitignore` has no suffix |
| Paths.DottedDotFileSuffix | documentation_bot.py:62 | `.env.example` has suffix `.example` |
| Paths.LastExtensionOnly | documentation_bot.py:62 | `archive.tar.gz` has suffix `.gz` |
| Paths.NoSuffixWithoutInnerDot | documentation_bot.py:62 | `notes.` and `Makefile` have no suffix |
| Text.LowerChar | documentation_bot.py:100-101 | a lower-cased character is never an upper-case letter, and it is a letter exactly when the original was |
| Text.Lower | documentation_bot.py:100-101 | lower-casing keeps the length |
| Text.LowerAtIndex | documentation_bot.py:100-101 | `lower()` maps each character in place, keeping the length |
| Text.LowerIdempotent | documentation_bot.py:100-101 | lower-casing twice is lower-casing once |
| Entries.FileName | documentation_bot.py:100 | the file name, lower-cased, that the name lists are matched against |
| Entries.FileType | documentation_bot.py:62 | the file's suffix, lower-cased, as at lines 62 and 101 |
| Entries.SuffixOfLower | documentation_bot.py:100-101 | the lower-cased suffix equals the suffix of the lower-cased name |
| Entries.FileTypeEndsFileName | documentation_bot.py:62 | a file's type is the suffix of its lower-cased name and a tail of it |
| Text.Strip | documentation_bot.py:139 | stripping never lengthens a line and leaves no white space at its end |
| Text.StripLeadingDropsSpace | documentation_bot.py:139 | `lstrip` keeps a tail of the line and drops only white space |
| Text.StripTrailingDropsSpace | documentation_bot.py:139 | `rstrip` keeps a head of the line and drops only white space |
| Text.StripEnds | documentation_bot.py:139 | a stripped line neither starts nor ends with white space |
| Text.StripSlice | documentation_bot.py:139 | a stripped line is a slice of the line with only white space around it |
| Text.StripIdempotent | documentation_bot.py:139 | stripping twice is stripping once |
| Text.Split | documentation_bot.py:138 | `split('\n')` always gives at least one piece |
| Text.SplitPiecesLackSeparator | documentation_bot.py:138 | no piece of `split('\n')` contains a newline |
| Text.SplitJoin | documentation_bot.py:138 | joining the pieces of `split('\n')` with newlines gives back the text |
| Text.SplitWithoutSeparator | documentation_bot.py:138 | a text without a newline is a single piece |
| Text.SplitAtFirst | documentation_bot.py:138 | splitting at the first newline gives the first line, then the pieces of the rest |
| TextSlices.StrippedPieceInText | documentation_bot.py:138-139 | every stripped line of the split occurs verbatim in the text |
| IgnorePolicy.InIgnoredDir | documentation_bot.py:80 | some whole component of the path, as the repository path was given, is one of the ignored directory names |
| IgnorePolicy.LooksBinary | documentation_bot.py:88-94 | a file looks binary when its first 1024 bytes hold a zero byte, or when opening or reading it failed (the bare `except` returns True) |
| IgnorePolicy.Chunk | documentation_bot.py:90 | `read(1024)` gives the first `min(len, 1024)` bytes of the data |
| IgnorePolicy.ShouldIgnore | documentation_bot.py:76-96 | a file in an ignored directory is ignored; the only failure is the file's own `stat()` error; a kept file has a known size of at most 1 MiB and was readable |
| IgnorePolicy.KeptExactly | documentation_bot.py:76-96 | a file is kept exactly when no path component is an ignored name, its size is known and at most 1 MiB, it was readable, and none of its first 1024 bytes is zero |
| IgnorePolicy.StatFailureExactly | documentation_bot.py:80-85 | the policy fails exactly for a file outside the ignored directories whose size cannot be read, and names that file |
| IgnorePolicy.IgnoredDirectoryExcludes | documentation_bot.py:79-81 | a file with an ignored component is dropped, whatever its size or content |
| IgnorePolicy.WholeComponentsOnly | documentation_bot.py:80 | `venvs`, `my.git` and `node_modules_old` are not ignored names |
| IgnorePolicy.IgnoredAncestorHidesAll | documentation_bot.py:80 | when the repository path is given with a part named `venv` (an absolute path through one), every file is dropped |
| IgnorePolicy.SizeBoundary | documentation_bot.py:84-85 | exactly 1048576 bytes passes the size test; 1048577 does not |
| IgnorePolicy.NullBeyondChunkIgnored | documentation_bot.py:88-92 | a zero byte after the first 1024 bytes does not make a file look binary |
| Classification.IsPrimary | documentation_bot.py:113-120 | the suffixes whose branches may set the project type: `.py` and `.js`/`.jsx`/`.ts`/`.tsx` |
| Classification.Language | documentation_bot.py:113-132 | a suffix names a language exactly when the table lists it, and the language is one of the table's eight |
| Classification.PrimaryLanguages | documentation_bot.py:113-120 | the suffixes that may set the project type are exactly those mapped to Python or JavaScript |
| Classification.IsDependency | documentation_bot.py:140 | a stripped line is a dependency when it is non-empty, does not start with `#`, and contains `==` |
| Classification.DependencyLines | documentation_bot.py:138-141 | at most one dependency per line, and a last line that passes the filter ends the list in its stripped form |
| Classification.Dependencies | documentation_bot.py:137-141 | at most one dependency per line of the text |
| Classification.SingleLineManifest | documentation_bot.py:137-141 | a text without a newline yields its stripped form exactly when that passes the filter |
| Classification.DependencyLinesSound | documentation_bot.py:138-141 | every extracted dependency passes the filter and is the stripped form of some line |
| Classification.DependencyLinesComplete | documentation_bot.py:138-141 | every line whose stripped form passes the filter is extracted |
| Classification.DependencyLinesAppend | documentation_bot.py:138-141 | extraction keeps line order: lines `a + b` yield those of `a`, then those of `b` |
| Classification.DependenciesVerbatim | documentation_bot.py:137-141 | every dependency is trimmed, passes the filter, and occurs verbatim in the file |
| Classification.OneLine | documentation_bot.py:139-141 | a single line yields its stripped form exactly when that passes the filter |
| Classification.PinnedLine | documentation_bot.py:140 | a trimmed, non-comment line containing `==` is kept unchanged |
| Classification.TwoLines | documentation_bot.py:138-141 | a two-line file yields the first line's dependencies, then the second's |
| Classification.SampleManifest | documentation_bot.py:135-141 | `requests==2.28.0\nflask==2.3.0` yields both lines, in order |
| Analyzer.Unset | documentation_bot.py:115-119 | the project type counts as unset when it is empty or `unknown`, the two values the tests at lines 115 and 119 accept |
| Analyzer.Classified | documentation_bot.py:98-143 | `_analyze_file` leaves `structure` and `file_types` alone, adds at most one path to each name list, and never replaces a concrete project type |
| Analyzer.Recorded | documentation_bot.py:57-67 | a kept file's relative path becomes the one new entry at the end of `structure`; file types and languages only grow; a concrete project type stays |
| Analyzer.Visit | documentation_bot.py:56-67 | an entry whose `is_file()` raises ends the walk with that entry's `IsFileFailed`; a non-file changes nothing; a visit that does not fail adds at most one entry to `structure` |
| Analyzer.Scan | documentation_bot.py:41-74 | an empty walk yields the empty record, and `structure` never has more entries than the walk |
| Analyzer.FailureIsFinal | documentation_bot.py:56-57 | once an `is_file()` or `stat()` failure has ended the walk, later entries do not change the outcome |
| Analyzer.Analysis.constructor | documentation_bot.py:45-53 | the record starts empty with project type `unknown` |
| Analyzer.Analysis.ExtractDependencies | documentation_bot.py:138-141 | the loop appends exactly the extracted dependencies of the content to the list, in order |
| Analyzer.Analysis.AnalyzeFile | documentation_bot.py:98-143 | the record after `_analyze_file` is the classification of the file added to the record before it |
| Analyzer.Analysis.Record | documentation_bot.py:58-67 | a kept file appends its path, adds its non-empty type, then is classified |
| Analyzer.Analyze | documentation_bot.py:41-74 | the loop's result is `Scan(walk)`: the record of the whole walk, or the `is_file()` or `stat()` error that ended it |
| ScanProperties.Kept | documentation_bot.py:57 | an entry is kept when `is_file()` answered True and the ignore policy answered False without raising |
| ScanProperties.Aborts | documentation_bot.py:57-85 | an entry ends the walk when its `is_file()` raises (line 57), or when it is a file outside the ignored directories whose `stat()` raises (line 84) |
| ScanProperties.KeptVisit | documentation_bot.py:57-67 | visiting a kept file records it: its path is appended, its type added, and it is classified |
| ScanProperties.ScanSummary | documentation_bot.py:56-67 | a walk that no `is_file()` or `stat()` failure ends yields the record defined field by field from its kept files |
| ScanProperties.ScanFailsExactly | documentation_bot.py:56-57 | the walk fails exactly when some entry's `is_file()` raises, anywhere, or some file's `stat()` raises outside an ignored directory |
| ScanProperties.AbortStep | documentation_bot.py:56-85 | an entry whose `is_file()` or `stat()` raises ends a walk that has gone through so far, with that entry's error |
| ScanProperties.ScanFailsAtFirst | documentation_bot.py:56-85 | the error reported is the `is_file()` or `stat()` error of the first entry that raises |
| ScanProperties.IsFileFailureEndsWalk | documentation_bot.py:57 | an entry whose `is_file()` raises ends the walk, even inside an ignored directory, because the ignore test comes after it |
| ScanProperties.SkippedVisit | documentation_bot.py:57 | a non-file or an ignored file that does not raise leaves the record as it is |
| ScanProperties.ExcludedEntryHasNoEffect | documentation_bot.py:57 | a non-file or an ignored file whose `is_file()` did not raise changes nothing, wherever it stands |
| ScanProperties.ProjectTypeUnset | documentation_bot.py:115 | a project type taken from the kept files counts as unset exactly when none of them has a primary-language suffix |
| ScanProperties.PrimaryLanguageAgrees | documentation_bot.py:113-120 | the table maps `.py` to Python and the script suffixes to JavaScript |
| ScanProperties.FileTypesSnoc | documentation_bot.py:61-64 | one more kept file adds its type to the file types when the type is non-empty |
| ScanProperties.LanguagesSnoc | documentation_bot.py:113-132 | one more kept file adds its language, if it has one, to the languages |
| ScanProperties.NamedSnoc | documentation_bot.py:103-110 | one more kept file with a listed name appends its path to that list |
| ScanProperties.ManifestDependenciesSnoc | documentation_bot.py:135-143 | one more kept, readable `requirements.txt` appends its dependencies |
| ScanProperties.ProjectTypeSnoc | documentation_bot.py:113-120 | one more kept file sets the project type only if it is primary and none was before |
| ScanProperties.SummarySnoc | documentation_bot.py:57-67 | recording one more kept file into the record of the files so far gives the record of all of them |
| ScanProperties.StructureIsKeptPaths | documentation_bot.py:56-59 | `structure` holds the relative paths of exactly the kept files, in walk order |
| ScanProperties.FileTypesExactly | documentation_bot.py:61-64 | `file_types` holds exactly the non-empty types of kept files |
| ScanProperties.LanguagesExactly | documentation_bot.py:112-132 | `languages` holds exactly the languages the table gives kept files |
| ScanProperties.NamedFilesExactly | documentation_bot.py:103-110 | `main_files` and `config_files` are the paths of the kept files with a listed name, in walk order, and each of their paths is in `structure` |
| ScanProperties.DependenciesOfManifests | documentation_bot.py:135-143 | `dependencies` is the extracted lines of the kept, readable `requirements.txt` files, file after file |
| ScanProperties.ManifestDependencySource | documentation_bot.py:135-143 | a string is a dependency exactly when it is extracted from some kept, readable `requirements.txt` |
| ScanProperties.ProjectTypeField | documentation_bot.py:52 | the project type is the one defined by the first primary file among the kept files |
| ScanProperties.ProjectTypeIsFirstPrimary | documentation_bot.py:113-120 | the project type is the language of the first kept `.py`/`.js`/`.jsx`/`.ts`/`.tsx` file |
| ScanProperties.ProjectTypeUnknown | documentation_bot.py:52 | the project type stays `unknown` exactly when no kept file has a primary suffix |
| ScanProperties.ProjectTypeSticks | documentation_bot.py:115-120 | once the project type is concrete, walking on does not change it |
| ScanProperties.AtMostOneLanguage | documentation_bot.py:112-132 | a file adds no language, or exactly the one its suffix names |
| ScanProperties.UnlistedSuffixOnlyRecorded | documentation_bot.py:61-64 | a non-empty suffix outside the table is still recorded as a file type and adds no language |
| ScanProperties.UnreadableManifest | documentation_bot.py:135-143 | an unreadable `requirements.txt` adds no dependency, yet is listed in `structure` and `config_files` |
| Generator.LlmCall | documentation_bot.py:210-233 | `_call_llm` refuses once the budget is spent; the call is counted exactly when the API returned a response; it returns text exactly when the response had text |
| Generator.RunSteps | documentation_bot.py:279-333 | a run never lowers the counter and writes at most one document per step |
| Generator.RunStepsAppend | documentation_bot.py:203-206 | running steps one after another is running them together; nothing happens after a failure |
| Generator.Stopped | documentation_bot.py:231-233 | steps after a failed call change nothing |
| Generator.CallsMatchDocuments | documentation_bot.py:226-229 | every counted call wrote one document, except a last call whose response had no readable text: it is counted and writes nothing |
| Generator.WithinBudget | documentation_bot.py:170-172 | starting within the budget, the counter never passes `max_llm_calls` and rises by at most one per step |
| Generator.SpentBudgetSkipsAll | documentation_bot.py:281-282 | with the budget spent, every step does nothing |
| Generator.NeverOverBudgetCall | documentation_bot.py:212-213 | because every step checks the budget before calling `_call_llm`, that call's budget error is never raised |
| Generator.AnsweredRun | documentation_bot.py:279-333 | when every call is answered, exactly the first `max - made` steps write their documents and are counted |
| Generator.FailsOnMissingReply | documentation_bot.py:216-233 | within the budget, a run fails exactly when a step it reaches gets no text, and it fails with the error of the first such step |
| Generator.DocSteps | documentation_bot.py:203-206 | `generate_documentation_files` runs four guarded steps |
| Generator.DocumentationGenerator.constructor | documentation_bot.py:153-154 | the counter starts at 0 and the cap is the given one |
| Generator.DocumentationGenerator.CallLlm | documentation_bot.py:210-233 | refuses once the budget is spent; a failed request leaves the counter alone; a response counts the call, then returns its text or raises when it has none |
| Generator.DocumentationGenerator.Generate | documentation_bot.py:279-333 | a step skips when the budget is spent, otherwise calls and writes, as `RunSteps` of that one step says, and never meets the budget error |
| Generator.DocumentationGenerator.Continue | documentation_bot.py:203-206 | one more step extends the run of the steps before it |
| Generator.DocumentationGenerator.GenerateDocumentationFiles | documentation_bot.py:190-208 | the four steps run as `RunSteps` says, and `docs` is created only when budget remains |
| Bot.ParseDetailLevel | documentation_bot.py:461 | a detail level is recognised exactly when it is `low`, `medium` or `high` |
| Bot.NewBot | documentation_bot.py:451-465 | construction succeeds exactly when the repository exists, the level is recognised and the budget is positive; otherwise the first failing check decides the error |
| Bot.DefaultsAccepted | documentation_bot.py:451 | the defaults `medium` and 20 are accepted |
| Bot.ReadmeSteps | documentation_bot.py:489-494 | the README step is run only when the repository has no README yet |
| Bot.BotSteps | documentation_bot.py:488-498 | a run has five steps when there is no README and four when there is one |
| Bot.DocumentationBot.constructor | documentation_bot.py:467-470 | a new bot holds its checked settings and no generator yet |
| Bot.DocumentationBot.GetGenerator | documentation_bot.py:472-476 | the first call creates a generator with the bot's budget and a zero counter; later calls return that same generator |
| Bot.RunBotSteps | documentation_bot.py:488-498 | the README step, when there is no README, then the four documentation steps, as `RunSteps` of `BotSteps` says; `docs` is created exactly when the README step did not fail and left budget over |
| Bot.DocumentationBot.WriteDocuments | documentation_bot.py:488-498 | the steps run on the kept generator from the calls it already counted, stays within the budget, and creates `docs` exactly when the documentation steps get past their guard |
| Bot.DocumentationBot.GenerateDocumentation | documentation_bot.py:478-505 | a failed analysis ends the run before any call and changes nothing; otherwise the steps run on the kept generator from its earlier count, documents written before a failed call stay written, the budget error never surfaces, every counted call wrote a document but a last one without text, and `docs` is created only when budget remained |
| Bot.AtMostFiveCalls | documentation_bot.py:488-498 | a run makes at most five calls, four when a README exists |
| Bot.SingleCallGoesToReadme | documentation_bot.py:490-498 | with a budget of one and no README, only the README is written |

## Left out

- File-system access (`rglob`, `is_file`, `stat`, `open`, `read`, `read_text`, `relative_to`, lines 56-58, 84-94, 137) is not modelled. Each result is a field of `FileEntry`, and a raised exception is `None`. `rglob` and `relative_to` are taken not to raise. The walk order is the order of the input sequence.
- `Text.Lower` lower-cases only `A`-`Z`. Python's `str.lower` also maps non-ASCII letters, which would take the Unicode case tables to model.
- `read_text` decoding and newline translation are part of the environment. `FileEntry.text` is the already decoded text.
- The conversion of `file_types` and `languages` to lists (lines 70-71) is not modelled. Its order is unspecified, so both are sets.
- `Analyzer.Analyze` builds the result record as a fresh `Analysis` object and returns its contents, where the source returns the dictionary itself. Nothing else holds the record, so no aliasing is lost.
- Logging (lines 43, 73, 171, 193, 227, 232 and the bot's log lines) has no effect on results.
- The OpenAI request (lines 216-224) is an oracle. Each step is handed a `Reply`: text, a request that raised, or a response without readable text (line 229 raising after line 226 counted the call). The model name, temperature and token limit are not modelled.
- The prompt and context templates (lines 235-445) are static text formatting. The model keeps only which document each step writes.
- Writing files and `mkdir` (lines 186-187, 199-200, 290-333) are recorded as the `written` sequence and the `docsDir` flag. A failing write is not modelled.
- `DocumentationGenerator.__init__`'s environment checks (the `openai` import and the `OPENAI_API_KEY` and `OPENAI_MODEL` variables, lines 156-166) are external configuration and are not modelled. The lazy creation in `_get_generator` is modelled as one generator created after the analysis succeeds.
- `DocumentationBot.__init__` is split in two: `NewBot` models the checks at lines 461-465, and the class's constructor takes the checked settings. The repository's existence is the `repoExists` input.
- `Bot.DocumentationBot.WriteDocuments` gets the generator once before the README step, where the source calls `_get_generator` before each step. Both calls return the same generator, and creating it has no other effect in the model.
- `RepositoryAnalyzer.__init__` (lines 35-39) repeats the bot's existence check. It is covered by `NewBot`'s `repoExists`.
- `main()`, argument parsing and the optional-import fallbacks (lines 14-29, 508-547) are command-line and environment plumbing, not modelled.
