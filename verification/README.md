# A verified model of the summarisation file layer

This project models in Dafny the core of a TypeScript toolkit. The toolkit turns a directory of documents into summaries: PDF to HTML to text to an AI summary. The model covers these parts:

- **The file layer** (`modules/fileutils`):
  - the two directory walkers;
  - the extension and output-path helpers;
  - `transformFiles`, which reads each input file, optionally reads its previous output, and writes a truthy transform result under the output directory, keeping read, write and failure metrics;
  - `transformIfShaChanged` and `transformFilesIfShaChanged`, which skip the transform when the old output records the digest of the input;
  - the marker functions, which find that digest in an old output or in an HTML file;
  - the shell helpers: classifying a process result, `execute`, and the two drivers that run a command per directory.
- **The configuration validators** of the summarise module (`summarise.config.ts`): one per section, plus `validateConfig`.
- **The `report` command**: it builds a table from the configured categories and fields, then reads every summary file. It counts enum values per category. As written, it adds number fields into one top-level entry per field, not into the category's cell (see Findings). A corrected variant of the command, selected by a parameter, adds them into the cells.

How the model is built:

- **State.** File contents and directories form a class, `Transform.FileSystem`, that the engine updates in place. The directory listing is a tree value, `Walker.Node`.
- **Imperative code.** The loops of `transformFiles`, of the shell drivers and of `reportAction` are methods. Each loop is proved equal to a prefix-recursive specification function, and the properties are lemmas about those functions. `findMarker`, which appends to the caller's metrics object, is a module-level method that modifies a `Marker.MarkerMetrics` object.
- **Recursive code.** The directory walkers are recursive generators in the source. Here they are recursive functions over a tree.
- **JavaScript values.** They are a datatype, `JsValues.JsValue`, with `typeof`, truthiness, `||`, member access and `+` written out. Member access throws a TypeError on null and undefined; `+` covers the NaN and string cases.

The modules and their files:

| module | file | models |
|---|---|---|
| `Wrappers` | wrappers.dfy | Option, Outcome (a value or a thrown error) and ErrorsAnd |
| `JsValues` | js_values.dfy | the JavaScript values and operators |
| `Paths` | paths.dfy | `path.join`, `path.relative` and `path.dirname` on segment lists |
| `Walker` | walker.dfy | `getFilesRecursively`, `getChildDirectories` and `getDirectoriesRecursively` |
| `FileNames` | file_names.dfy | `changeExtension` and `inputToOutputFileName` |
| `Transform` | transform.dfy | the file system, `transformFiles` and the sha gate |
| `Marker` | marker.dfy | the marker functions and `findMarker` |
| `Shell` | shell.dfy | the shell helpers |
| `SummariseConfig` | summarise_config.dfy | the validators |
| `Report` | report.dfy | `reportAction` |

## Model

| member | source | states |
|---|---|---|
| Walker.FilesMembership | modules/fileutils/src/files.ts:22-35 | A path is yielded exactly when it is a regular file strictly below the directory whose own name the filter accepts. |
| Walker.FilesConcat | modules/fileutils/src/files.ts:25-34 | Entries are walked in order: walking a listing a+b yields the walk of a, then the walk of b. A subdirectory's files come at the subdirectory's position. |
| Walker.FilesAtPosition | modules/fileutils/src/files.ts:25-34 | The walk is the entries before position i, then entry i's own contribution, then the entries after it. |
| Walker.FilesBelowRoot | modules/fileutils/src/files.ts:26-31 | Every yielded path extends the walked directory by at least one segment. |
| Walker.GetDirectoriesRecursively | modules/fileutils/src/files.ts:17-20 | The first directory yielded is the start directory itself. |
| Walker.ChildDirectoriesMembership | modules/fileutils/src/files.ts:5-16 | A directory is yielded exactly when it lies below the start and the filter accepts its own name. A rejected directory is still descended into. |
| Walker.ChildDirectoriesConcat | modules/fileutils/src/files.ts:7-15 | Entries are walked in order: a+b yields the directories of a, then those of b. |
| Walker.DirectoriesMembership | modules/fileutils/src/files.ts:17-20 | The recursive walk yields the start directory and exactly the accepted directories below it. |
| Walker.TestTreeWalks | modules/fileutils/src/files.ts:5-35 | On the tree test/{a/a1.json, b/b1.json, test.json}: the `.json` file walk is a1, b1, test.json in that order, and the directory walk is test, test/a, test/b. |
| Walker.RejectedDirectoryIsWalked | modules/fileutils/src/files.ts:10-13 | A directory rejected by the filter is not yielded, but its subdirectories are. |
| Paths.Dirname | modules/fileutils/src/files.ts:77 | A non-empty path is its dirname followed by its last segment. |
| Paths.JoinPlain | modules/fileutils/src/files.ts:8 | Joining a path without `.`, `..` or empty segments appends it. |
| Paths.JoinUps | modules/fileutils/src/files.ts:57 | Joining k leading `..` segments removes k segments from the base. |
| Paths.RelativeJoin | modules/fileutils/src/files.ts:56-57 | Joining `from` with `relative(from, to)` gives back `to`. |
| Paths.RelativeToAncestor | modules/fileutils/src/files.ts:56 | The path relative to an ancestor is the remaining suffix. |
| FileNames.ExtensionDotIsMatch | modules/fileutils/src/files.ts:45 | The replaced dot is exactly where `/\.[^/.]+$/` matches: a dot followed by at least one character, none of them `/` or `.`, up to the end. |
| FileNames.ChangeExtensionReplaces | modules/fileutils/src/files.ts:45 | `stem.ext` becomes `stem` followed by the new extension. |
| FileNames.ChangeExtensionKeeps | modules/fileutils/src/files.ts:45 | A name without a match is returned unchanged. |
| FileNames.ChangeExtensionIdempotent | modules/fileutils/src/files.ts:45 | Changing to the same extension a second time changes nothing. |
| FileNames.ChangeExtensionExamples | modules/fileutils/src/files.ts:45 | A dot in a directory name, a trailing dot and no extension are left alone; `a/b.json` becomes `a/b.txt`. |
| FileNames.ChangePathExtensionAgrees | modules/fileutils/src/files.ts:41-45 | Replacing the extension of a path's last segment gives the same string as the replacement on the whole path, because the expression cannot match across a `/`. |
| FileNames.OutputMirrorsInput | modules/fileutils/src/files.ts:54-59 | A renamed file below the input directory maps to the same relative path below the output directory. |
| FileNames.DefaultIsIdentity | modules/fileutils/src/files.ts:55-58 | Without a renaming function, the output path is the output directory plus the file's path relative to the input directory. |
| Transform.ReadAfterWrite | modules/fileutils/src/files.ts:69-79 | Reading a written path gives the new content. Every other path reads as before, and a consistent disk stays consistent. |
| Transform.MkdirMeaning | modules/fileutils/src/files.ts:78 | After a successful recursive mkdir every prefix of the directory is a directory and no read changes. Consistency is kept, and a second mkdir changes nothing. |
| Transform.FileSystem.Mkdir | modules/fileutils/src/files.ts:78 | On success the state becomes the mkdir result; on failure it is unchanged. Consistency is kept. |
| Transform.FileSystem.WriteFile | modules/fileutils/src/files.ts:79 | On success the state becomes the write result; on failure it is unchanged. Consistency is kept. |
| Transform.OldOutput | modules/fileutils/src/files.ts:72 | The transform gets an old output exactly when asked to include it and the output file exists. |
| Transform.ProcessFile | modules/fileutils/src/files.ts:68-86 | A read-only outcome and a dry run leave the disk as it was. A write means the transform returned a truthy string, now stored at the output path with its directories created. A missing input fails with no change. |
| Transform.ProcessFileFailure | modules/fileutils/src/files.ts:68-85 | A file is recorded as failed exactly when the read, the transform, or (for a truthy result outside a dry run) the mkdir or the write throws. The disk is then as the last step that succeeded left it. |
| Transform.TransformOne | modules/fileutils/src/files.ts:68-86 | One `try`/`catch` step, imperatively: new state and outcome equal `ProcessFile`. |
| Transform.TransformAndCount | modules/fileutils/src/files.ts:67-87 | One pass of the loop: the file's step followed by its count or its entry in `failed` extends the run over the files before it by that file. |
| Transform.TransformFiles | modules/fileutils/src/files.ts:60-90 | The loop over the walked files leaves the state and metrics that the per-file fold over the file walk defines. |
| Transform.RunAccounting | modules/fileutils/src/files.ts:64-88 | Reads plus failures equal the number of files walked. Writes never exceed reads. The failures are a subsequence of the walk. A dry run writes nothing and leaves the disk unchanged. |
| Transform.RunKeepsConsistent | modules/fileutils/src/files.ts:76-81 | No path ever becomes both a file and a directory. |
| Transform.FalsyResultIsReadOnly | modules/fileutils/src/files.ts:74-82 | An undefined or empty result counts as a read and writes nothing. |
| Transform.MissingOldOutputIsUndefined | modules/fileutils/src/files.ts:72 | A missing old output is given as undefined and is not a failure. |
| Transform.TruthyResultIsWritten | modules/fileutils/src/files.ts:76-81 | Outside a dry run, a truthy result is written to the output path when nothing blocks it. |
| Transform.ShaGateDecision | modules/fileutils/src/files.ts:98-105 | The transform is skipped, whatever it is, exactly when the old output is truthy and its sha is the input's digest. Otherwise it is called with the old output's sha. |
| Transform.ShaGateNoOldOutput | modules/fileutils/src/files.ts:100-103 | Without an old output the transform is always called. |
| Transform.ShaGateShaFailure | modules/fileutils/src/files.ts:101 | Failing to find the sha fails the gated transform. |
| Transform.ShaJob | modules/fileutils/src/files.ts:109-112 | The sha job always reads old outputs and keeps the caller's filter and dry-run flag. |
| Transform.TransformFilesIfShaChanged | modules/fileutils/src/files.ts:109-112 | The result is `transformFiles` run with the gated transform. |
| Transform.UpToDateRunWritesNothing | modules/fileutils/src/files.ts:98-112 | When every file's old output records its digest, a gated run reads every file, writes and fails nothing, and leaves the disk unchanged. |
| Marker.MissingOldOutputHasNoMarker | modules/fileutils/src/marker.ts:4-19 | An unreadable old output gives an undefined marker from every old-output marker, whatever the finder or field. |
| Marker.FieldMarker | modules/fileutils/src/marker.ts:13-17 | A parse failure propagates. An object gives the field's value, or undefined when the field is absent. Null gives undefined. |
| Marker.ShaMarkerReadsSha | modules/fileutils/src/marker.ts:19 | An old output whose JSON has a `sha` gives that sha. |
| Marker.OldOutputPathExamples | modules/fileutils/src/marker.ts:6-7 | With input/output directories: input/file4.json maps to output/file4.json, and a file outside the input directory keeps its name. |
| Marker.FindMarker | modules/fileutils/src/marker.ts:21-29 | No marker function gives undefined. A failing marker function gives undefined and appends the file to the marker errors. Otherwise the marker is returned and the metrics are unchanged. |
| Marker.QuoteFrom | modules/fileutils/src/marker.ts:34 | Finds the first double quote at or after a position, or reports that there is none. |
| Marker.FirstMetaSha | modules/fileutils/src/marker.ts:34 | The match is at the leftmost position where the regular expression matches; no match means there is no such position. |
| Marker.LeftmostMatchWins | modules/fileutils/src/marker.ts:34-35 | The first matching index decides the marker. |
| Marker.TikaShaRoundTrip | modules/fileutils/src/marker.ts:31-36 | For a document whose `<head>` got the sha tag (and had none before it), the marker is exactly the sha that was inserted. |
| Shell.CodeOrZero | modules/fileutils/src/shell.ts:42 | `error?.code \|\| 0` is 0 exactly when there is no error or its code is falsy. |
| Shell.ClassifyExecMeaning | modules/fileutils/src/shell.ts:9-11 | The message is stdout. A result is successful exactly when the code is falsy, even if stderr is not empty (shell.ts:39-42). A failed result is built exactly when stderr is non-empty or the code is not 0. |
| Shell.ExecuteMeaning | modules/fileutils/src/shell.ts:47-54 | A dry run returns no errors and runs nothing. A shell rejection propagates. Errors are reported exactly when the result is not successful, and the one error is the result's stderr. A successful result gives its stdout. |
| Shell.ExecuteScript | modules/fileutils/src/shell.ts:39-53 | With the script shell, `execute` returns stdout exactly when the exit code is falsy. |
| Shell.ExecuteRecursivelyCmdChanges | modules/fileutils/src/shell.ts:71-87 | The loop's tally equals the per-directory fold over the directory walk. |
| Shell.CmdChangesAccounting | modules/fileutils/src/shell.ts:72-86 | Each directory is executed, failed or both; the counts are bounded by the number of directories. |
| Shell.CmdChangesExact | modules/fileutils/src/shell.ts:74-85 | `executed` is the number of directories whose command was built and whose `execute` returned, error result or not. `failed` holds, in walking order, the directory for a throw and the directory followed by its errors joined with `;` for an error result. |
| Shell.CmdChangesAllSucceed | modules/fileutils/src/shell.ts:74-85 | When every run succeeds, every directory is executed and none fails. |
| Shell.CmdChangesAllFail | modules/fileutils/src/shell.ts:76-81 | When every run fails, every directory is still executed. Each failure reads as the directory followed by the error. |
| Shell.CmdChangesOnTestTree | modules/fileutils/src/shell.ts:71-87 | On the test tree with failing runs: 3 executed, 3 failed. |
| Shell.ExecuteRecursivelyInChildDirectoriesAsWritten | modules/fileutils/src/shell.ts:57-69 | As written, the tally covers the start directory only. |
| Shell.ExecuteRecursivelyInChildDirectories | modules/fileutils/src/shell.ts:57-69 | Corrected: the tally is the fold over every walked directory. |
| Shell.InChildAccounting | modules/fileutils/src/shell.ts:58-66 | Executed plus failed equals the number of directories. |
| Shell.InChildDirectoriesStopsEarly | modules/fileutils/src/shell.ts:60-67 | On the test tree, the as-written driver accounts for 1 directory where the walk yields 3. |
| JsValues.TypeOf | modules/summarise/src/summarise.config.ts:43 | `typeof` is "object" exactly for null, arrays and objects; "number" exactly for numbers and NaN; "string" exactly for strings. |
| JsValues.Member | modules/summarise/src/commands/report.command.ts:27 | Member access throws exactly on null and undefined. An object gives its own property, or undefined for an absent key. Booleans and numbers give undefined. Arrays and strings never throw; their keys are stated in `JsValues.ArrayAndStringMembers`. |
| JsValues.ArrayAndStringMembers | modules/summarise/src/commands/report.command.ts:27 | An array or a string gives its length under `length`, and its element (one character for a string) under an index's decimal form. Any other key not starting with a digit gives undefined. |
| JsValues.JsAdd | modules/summarise/src/commands/report.command.ts:36 | `+` gives a number, NaN or a string, and adds two numbers. |
| SummariseConfig.ValidateNeeded | modules/summarise/src/summarise.config.ts:41-45 | No error exactly when the value is truthy and of the expected type; at most one error. |
| SummariseConfig.ValidateNeededMessages | modules/summarise/src/summarise.config.ts:41-45 | A falsy value is "not defined". A value of the wrong type is "not a string", even when a number is expected. |
| SummariseConfig.DirectoryMeaning | modules/summarise/src/summarise.config.ts:46-55 | Throws exactly on null. No errors exactly when all five directories (pdfs, tika, text, html, summary) are non-empty strings. |
| SummariseConfig.AiMeaning | modules/summarise/src/summarise.config.ts:56-65 | Throws exactly on null. No errors exactly for type "openai" with url, model and token given as non-empty strings. |
| SummariseConfig.NonfunctionalsMeaning | modules/summarise/src/summarise.config.ts:66-73 | Throws exactly on null or a null retry. No errors exactly when throttling and concurrency are non-zero numbers and the retry is valid. |
| SummariseConfig.RetryMeaning | modules/summarise/src/summarise.config.ts:75-83 | Throws exactly on null. An absent retry is fine. Otherwise no errors exactly when `initialInterval`, `maximumInterval` and `maximumAttempts` are non-zero numbers. |
| SummariseConfig.SchemaMeaning | modules/summarise/src/summarise.config.ts:84-91 | Throws exactly on null. No errors exactly for type "inline" with a value defined. |
| SummariseConfig.TikaMeaning | modules/summarise/src/summarise.config.ts:92-99 | Throws exactly on null. No errors exactly for type "jar" with a non-empty jar string. |
| SummariseConfig.ValidateConfigMeaning | modules/summarise/src/summarise.config.ts:100-114 | The configuration itself is returned exactly when it is well formed. It throws exactly when a section is null. Any error list is non-empty. |
| SummariseConfig.ObjectConfigMeaning | modules/summarise/src/summarise.config.ts:100-114 | For an object configuration, section by section: the configuration comes back exactly when it is well formed, a null section throws, and any error list is non-empty. |
| SummariseConfig.ArrayConfigRejected | modules/summarise/src/summarise.config.ts:100-114 | An array configuration has none of the named sections, so it is returned with a non-empty error list and does not throw. |
| SummariseConfig.UnsupportedAiTypeExample | modules/summarise/src/summarise.config.ts:60 | An AI type other than openai gives only the "Invalid AI type" message. |
| SummariseConfig.WrongTikaTypeExample | modules/summarise/src/summarise.config.ts:95-97 | A numeric tika type is "not a string", and the jar is still checked. |
| SummariseConfig.NonfunctionalsExamples | modules/summarise/src/summarise.config.ts:66-73 | Valid values for throttle and concurrency, with no retry policy, give no error. |
| SummariseConfig.ZeroThrottleExample | modules/summarise/src/summarise.config.ts:66-73 | A throttle of 0 is reported as "not defined", because the check tests for a truthy value. |
| SummariseConfig.StringThrottleExample | modules/summarise/src/summarise.config.ts:66-73 | A throttle that is a string is reported with the "is not a string" message the source uses. |
| SummariseConfig.NonObjectConfigExample | modules/summarise/src/summarise.config.ts:102-105 | A string configuration gives "Config is not an object". A null one throws. |
| Report.BuildInitialTable | modules/summarise/src/commands/report.command.ts:13-20 | The nested loops build the initial table. |
| Report.InitCellsShape | modules/summarise/src/commands/report.command.ts:16-19 | Each number field starts at 0 and each enum field at zero counts. Other fields and other names get no cell. |
| Report.InitialTableShape | modules/summarise/src/commands/report.command.ts:14-20 | There is a row for exactly the categories, and every cell starts at its kind's initial value. |
| Report.ScanOne | modules/summarise/src/commands/report.command.ts:23-41 | The loops for one file leave the table, top-level entries and errors that the per-file function defines. With `TopLevel` that is the file's step as written. |
| Report.ReportAction | modules/summarise/src/commands/report.command.ts:12-42 | With `TopLevel`, the command as written: its table, top-level entries and errors are the scan of every walked summary file, starting from the initial table. With `InCell`, the corrected command. |
| Report.CategoriesStepThrows | modules/summarise/src/commands/report.command.ts:25-27 | A null summary throws the TypeError of its first category before any update. |
| Report.CategoriesStepReturns | modules/summarise/src/commands/report.command.ts:25-38 | Any other summary goes through every category. |
| Report.ScanFileCell | modules/summarise/src/commands/report.command.ts:24-38 | A parsed summary changes each configured cell once, by its field's effect on `json[category]?.[field]`: an enum bumps a bucket; a number changes nothing as written and adds in the corrected command. An unparsable or null summary changes no cell. |
| Report.ScanFileOtherCells | modules/summarise/src/commands/report.command.ts:25-38 | Cells outside the configured categories and fields never change. |
| Report.EnumBucketBumped | modules/summarise/src/commands/report.command.ts:29-32 | The bucket of the value's key goes up by exactly one, creating it when it is missing; other buckets stay. |
| Report.NumberCellAdds | modules/summarise/src/commands/report.command.ts:33-37 | As written, a number cell does not change. In the corrected command it grows by the summary's value when that value is a number. |
| Report.NotANumberReported | modules/summarise/src/commands/report.command.ts:35 | A non-number value appends "<field> is not a number" to the file's messages. |
| Report.FailedFileRecorded | modules/summarise/src/commands/report.command.ts:23-41 | An unreadable, unparsable or null file appends one message and leaves the table and the top-level entries unchanged. |
| Report.ReportEnumTotal | modules/summarise/src/commands/report.command.ts:14-42 | In both variants, each enum cell's counts add up to the number of summaries that parse to a non-null value. |
| Report.ReportNumberCellsStayZero | modules/summarise/src/commands/report.command.ts:17-36 | As written, every number cell ends at the 0 it was initialised to, whatever the summaries hold. |
| Report.ReportTotalsNeverNumbers | modules/summarise/src/commands/report.command.ts:36 | As written, no top-level entry is ever a number. Once a summary parses (and there is a category), every number field has one, so each is NaN or a string. |
| Report.CorrectedReportNumberTotal | modules/summarise/src/commands/report.command.ts:33-37 | In the corrected command, each number cell ends as the sum of the numbers the summaries hold for that category and field. |
| Report.TotalIncrement | modules/summarise/src/commands/report.command.ts:30-31 | Bumping one bucket raises the sum of the counts by one. |
| Report.ScanFilesAppends | modules/summarise/src/commands/report.command.ts:35-40 | Messages are only ever appended, and only for the files scanned. |
| Report.ReportErrorsAreWalkedFiles | modules/summarise/src/commands/report.command.ts:21-41 | Only walked summary files have messages. |
| Report.AsWrittenNumberExample | modules/summarise/src/commands/report.command.ts:36 | One summary `{"c": {"tokens": 5}}`: as written, the cell `c.tokens` stays 0, the top-level `tokens` is NaN and no error is recorded. Corrected, the cell holds 5. |

## Left out

- Input and output:
  - Files, directory listings, the shell process, `JSON.parse`, the digest (`calculateSHA256`, SHA-256 in base64url) and the marker config's `readFile` are parameters: a `FileSystem` object, a tree, or injected functions.
  - The digest is treated as an opaque function.
  - Console logging and the `debug` flags are not modelled.
- Concurrency: the walkers are async generators read lazily. The model takes a snapshot tree and walks it in listing order, so a change to the directory during the walk is not modelled. A `readdir` that fails is not modelled either.
- `Walker.FilesMembership`: the walk keeps the listing order. The source sorts the directory entries, but `sort()` with no comparator compares their string forms, which are all `[object Object]`. So that sort leaves the order as listed.
- `Transform.FileSystem.Mkdir`: a recursive `mkdir` is atomic here. The real one can create some ancestors and then fail.
- `FileNames.ChangeExtension`: the replacement string is taken literally. `$` patterns in `String.prototype.replace` are not modelled.
- `Paths.PathString`: paths are written with the POSIX separator `/`. `path.join` uses the platform's separator, so on Windows the walked paths, the output paths and the directory names in the shell drivers' `failed` entries would hold `\` instead.
- Numbers:
  - Numbers are mathematical integers plus NaN. Fractions, infinities and `-0` are not modelled.
  - `JsValues.PropertyKey` writes integers in decimal, which is what JavaScript does within its safe range.
- `JsValues.Member`: inherited properties are not modelled. This covers methods such as `toString` on objects, arrays, strings, numbers and booleans, reachable through `json[category]?.[field]` with a field of that name, and through the bucket lookup `result[category]?.[field]?.[value] || 0` of an enum field (report.command.ts:30). There an enum value such as `constructor` or `toString` would read an inherited function, and `1 +` it would give a string. `Report.EnumBucketBumped` and `Report.CountIn` count such a value from 0 like any other. String length and indices count characters, not UTF-16 code units.
- `Marker`:
  - The `variant` argument (`0`) passed to `inputToOutputFileName` is ignored, as the function ignores it.
  - The marker configuration carries only the fields the marker functions read.
- `Shell`:
  - `cmdFn` may throw; this is modelled as an `Outcome`.
  - `hasErrors` is taken as "is an error list".
  - `encoding` is not modelled.
- `Report.ReportAction`:
  - The top-level entries are kept apart from the category rows. When a number field shares a category's name, the as-written `result[field] +=` would overwrite that row; this is not modelled.
  - In the corrected variant, values that are not numbers add nothing. JavaScript's `+` would add `true` as 1 or concatenate a string.
  - The final `console.log` of the JSON is not modelled.
- `Report.ScanFileCell`, `Report.EnumBucketBumped`, `Report.NumberCellAdds`, `Report.ReportEnumTotal`, `Report.ReportNumberCellsStayZero` and `Report.CorrectedReportNumberTotal` assume distinct category names and distinct field names. Field names are distinct as keys of an object. The YAML configuration can list a category twice, which counts each summary twice in that category; these lemmas say nothing about that case. The model itself scans such a list as the source does.
- The other commands, the tika server and client beyond the tag format, the OpenAI client, throttling, retries and the YAML loading are not part of this model.

## Findings

| source | as written | input that shows it | evidently intended | confidence | as-written member | corrected member |
|---|---|---|---|---|---|---|
| modules/fileutils/src/shell.ts:57-69 | The `return { executed, failed }` sits inside the `for await` loop, so only the first directory (the start directory) is processed. | A start directory `test` with subdirectories `a` and `b`: the walk yields 3 directories and 1 is accounted for. | Run the command in every directory the walk yields, then return. | high, not executed | Shell.ExecuteRecursivelyInChildDirectoriesAsWritten | Shell.ExecuteRecursivelyInChildDirectories |
| modules/summarise/src/commands/report.command.ts:36 | `result[field] += value \|\| 0` adds to a top-level entry named after the field. That entry was never initialised, so `undefined + n` makes it NaN (or a string). The per-category number cell set up at line 17 stays 0. The model's `Report` and `ReportAction` with `TopLevel` do this, and `Report.AsWrittenNumberExample` shows it on the input here. | One summary `{"c": {"tokens": 5}}` with category `c` and number field `tokens`: the entry becomes NaN and `result.c.tokens` stays 0. | Add the number into `result[category][field]` (`CorrectedReport`, `ReportAction` with `InCell`). Values that are not numbers add nothing, as line 35 already reports them. | medium, not executed | Report.ReportNumberCellsStayZero | Report.CorrectedReportNumberTotal |
