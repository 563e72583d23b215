# Python to EXE: a verified model of the command builder and the conversion loop

Python to EXE is a desktop front end for PyInstaller. The user picks a source
file and a set of options. The window turns them into a PyInstaller command
line. A worker thread runs that command, streams its output into a log pane,
and moves a progress bar. This project models, in Dafny, the four pieces of
that program that hold logic:

- **`MainWindow.build_command`** (`CommandBuilder`, `CommandLayout`, with
  `Paths` and `Text`). The window state is an immutable `Options` record. The
  host is a `Host` value: `sys.executable`, the platform, the paths
  `os.path.isfile` accepts and the paths `os.path.exists` accepts.
  - `BuildCommand` appends the tokens step by step, as the source does. It is
    proved equal to the function `Build`.
  - `Build` splits the command into eleven *blocks*: the prefix, the
    switches, `--name`, `--icon`, the output directory, `--add-data`,
    `--hidden-import`, `-O`, UPX, the extra arguments and the source.
  - `CommandLayout` places each block at its *slot*, the index where the
    block starts in the final list. It proves what stands at every slot.
    These claims are positional because a user string, such as a name or an
    extra argument, may itself equal an option token.
- **The read loop of `ConversionThread.run`** (`ConversionRunner`).
  - The child process is a `Child` value. Either it could not be started, or
    it printed a sequence of lines and exited with a code.
  - Each line carries the value of the cancel flag at the moment the loop
    looks at it.
  - `ReadLoop` and `Run` update the progress as the code does, with
    `min(progress + step, ceiling)`. They are proved to emit exactly the
    signals that `RunEvents(AsWritten, child)` describes. Lemmas then prove
    the outcome properties of that as-written loop.
  - `RunEvents` also takes the intended update, which never moves the bar
    back. The lemmas that need it (the progress never falls) are stated for
    that corrected loop; see Findings.
- **The text scan of `detect_imports`** (`ImportParsing`): which top-level
  packages a line such as `import a.b as c, d` or `from x.y import z` names.
- **The hidden-import list** (`HiddenImports`). The class `MainWindow` holds
  the list and the `--windowed` and `--onefile` check boxes.
  - `ApplySelectedTemplate` appends a template's imports without duplicates.
    The specification function `MergeAppend` describes the result.
  - `DetectImports` appends the detected packages that the list did not hold
    and that are not excluded.

Three facts about the code shape the model:

- The progress bar can move back. The update takes `min(progress + step,
  ceiling)` even when the progress already stands above that keyword's
  ceiling. See Findings.
- The keywords are tried in a fixed order, `Analyzing`, `Processing`,
  `Building`, `Copying`, and the first one the line contains wins
  (python_to_exe.py:138-145).
- Entries typed in by hand are not de-duplicated (python_to_exe.py:854-860).
  Only the template and detection paths skip names already listed. So the
  builder emits every entry, repeats included.

## Model

| member | source | states |
|---|---|---|
| CommandBuilder.Build | python_to_exe.py:1041-1116 | Fails exactly when the source field is empty or names no existing file, whatever the other options. Otherwise the list starts with `exe -m PyInstaller` and ends with the source path. |
| CommandBuilder.BuildCommand | python_to_exe.py:1041-1116 | The step-by-step appending returns exactly `Build`'s result, error included. |
| CommandBuilder.BlocksInOrder | python_to_exe.py:1048-1114 | The command is the eleven blocks, appended in the order the widgets are read. |
| CommandBuilder.AppendSwitches | python_to_exe.py:1051-1067 | Appends exactly the switch block of the six check boxes. |
| CommandBuilder.SwitchesInOrder | python_to_exe.py:1051-1067 | The switch block lists `--onefile --windowed --noconsole --clean --noconfirm --strip` in that fixed order, each one present exactly when its box is ticked, and nothing else. No switch appears twice. |
| CommandBuilder.SwitchNamesDistinct | python_to_exe.py:1051-1067 | The six switch names differ, so each switch appears at most once. |
| CommandBuilder.AppendOutputDir | python_to_exe.py:1078-1081 | Appends `--distpath dir/dist --workpath dir/build --specpath dir` exactly when a directory is set. |
| CommandBuilder.ExistingKeepsOrder | python_to_exe.py:1084-1089 | The paths kept for `--add-data` are exactly the listed paths that exist, in list order. An existing path is kept as many times as the list holds it, a missing one never. All of them are kept when all exist. |
| CommandBuilder.AddDataPairs | python_to_exe.py:1084-1089 | The `--add-data` block is one pair per kept path: `--add-data`, then `path<sep>basename(path)`. |
| CommandBuilder.AppendAddData | python_to_exe.py:1084-1089 | The loop appends exactly the `--add-data` block. |
| CommandBuilder.HiddenImportPairs | python_to_exe.py:1092-1094 | One `--hidden-import name` pair per list entry, in list order. |
| CommandBuilder.AppendHiddenImports | python_to_exe.py:1092-1094 | The loop appends exactly the `--hidden-import` block. |
| CommandBuilder.UpxChoice | python_to_exe.py:1102-1107 | Exactly one of `--upx-dir=upx` and `--noupx`. `--upx-level=n` comes only right after `--upx-dir=upx`, and only for a positive level. |
| CommandBuilder.AppendUpx | python_to_exe.py:1102-1107 | Appends exactly the UPX tokens. |
| CommandLayout.BlocksOpen | python_to_exe.py:1070-1107 | Each optional block is present exactly when its widget condition holds, and it opens with its own option token. The UPX block is never empty. |
| CommandLayout.SlotOpening | python_to_exe.py:1070-1107 | The token at a block's slot opens that block exactly when the block is present. Otherwise it opens a later block. |
| CommandLayout.NameOption | python_to_exe.py:1070-1071 | `--name` stands at its slot exactly when the name is non-empty, and the name follows it. |
| CommandLayout.IconOption | python_to_exe.py:1074-1075 | `--icon` stands at its slot exactly when the icon is set and is an existing file, and the icon path follows it. |
| CommandLayout.OutputDirOptions | python_to_exe.py:1078-1081 | `--distpath` stands at its slot exactly when a directory is set. Then the six tokens `--distpath dir/dist --workpath dir/build --specpath dir` follow in that order. |
| CommandLayout.DataFileOptions | python_to_exe.py:1084-1089 | From the `--add-data` slot on, the command holds one pair per existing extra path, in list order, and nothing for missing paths. |
| CommandLayout.HiddenImportOptions | python_to_exe.py:1092-1094 | From its slot on, the command holds one `--hidden-import name` pair per entry, in list order. |
| CommandLayout.OptimizeOption | python_to_exe.py:1097-1099 | An `-O` token stands at its slot exactly when the level is positive, and it is `-O` followed by the level's digit. |
| CommandLayout.CommandEnding | python_to_exe.py:1102-1114 | The command ends with the UPX tokens, then the whitespace-split extra arguments, then the source path. |
| CommandLayout.SwitchBlockAt | python_to_exe.py:1048-1067 | Right after the three prefix tokens comes the switch block, and the next block starts at the name slot. |
| CommandLayout.SwitchBlockFollowedByOption | python_to_exe.py:1051-1067 | The longest run of switch tokens after the prefix is exactly the switch block. |
| CommandLayout.SwitchesOnlyChangeSwitchBlock | python_to_exe.py:1051-1067 | Changing the check boxes changes nothing from the name slot on. |
| Paths.Join | python_to_exe.py:1079-1080 | `os.path.join(dir, name)` for a plain name: `dir`, then at most one added separator, then `name`. The separator is added exactly when `dir` is not empty, does not end in a separator and, on Windows, is not a bare drive `X:`. The added separator is a `\` on Windows and a `/` elsewhere. |
| Paths.Basename | python_to_exe.py:1088 | The result is a suffix of the path and holds no separator. On Windows, for a path with an `X:` drive, it never includes the drive: it follows the drive or the last separator. Otherwise it is the whole path or follows the last separator. |
| Paths.DataSeparatorByPlatform | python_to_exe.py:1084 | The `--add-data` separator `DataSeparator` gives is `;` exactly on Windows and `:` exactly on every other platform. |
| Paths.BasenameOfJoin | python_to_exe.py:1079-1080 | `basename(join(dir, name)) == name` for a plain name, on both platforms. |
| Text.IsSpace | python_to_exe.py:884-892 | The characters Python's `str.isspace` accepts, which `strip()` and `split()` drop. The Latin-1 and Unicode spaces, the ASCII controls 9 to 13 and 28 to 31, and the blank. The log line is stripped the same way at line 135. |
| Text.StartsWithCharwise | python_to_exe.py:885-891 | `s.startswith(p)`, as `StartsWith` defines it, holds exactly when `p` is no longer than `s` and agrees with it at every position of `p`. |
| Text.Contains | python_to_exe.py:138-145 | `sub in s`, defined by recursion: `sub` is a prefix of `s` or occurs in `s` without its first character. `ContainsAt` states what that means. |
| Text.ContainsAt | python_to_exe.py:138-145 | `sub in s` holds exactly when `sub` starts at some position of `s`. |
| Text.Strip | python_to_exe.py:884-892 | The result neither starts nor ends with whitespace. A string that already does neither is returned unchanged. The log line is stripped the same way at line 135. |
| Text.StripSlice | python_to_exe.py:884-892 | The result is the slice of `s` left after dropping whitespace at both ends: only whitespace stands before and after it. The log line is stripped the same way at line 135. |
| Text.BeforeFirst | python_to_exe.py:888 | `s.split(sep)[0]`: a prefix of `s` in which `sep` starts nowhere, so it ends at the first occurrence of `sep` or at the end of `s`. |
| Text.SplitChar | python_to_exe.py:883 | `s.split(c)`: at least one piece, none holding `c`, and joining them gives `s` back. |
| Text.SplitJoinRoundTrip | python_to_exe.py:886 | Splitting a joined list gives the list back when no piece holds the separator. |
| Text.Words | python_to_exe.py:1111 | `s.split()`: non-empty words without whitespace. |
| Text.WordsOfWord | python_to_exe.py:1111 | A single word splits into itself. |
| Text.WordsSplitAtSpace | python_to_exe.py:1111 | A whitespace character separates: the words of `a + c + b` are the words of `a`, then the words of `b`. With `WordsOfWord` this fixes `split()` on any text. |
| Text.WordsUnwordsRoundTrip | python_to_exe.py:1111 | Splitting space-joined words gives the words back. |
| Text.DigitString | python_to_exe.py:1099 | The one decimal digit of a level from 0 to 9. |
| ConversionRunner.FirstMatch | python_to_exe.py:138-145 | The index of the first keyword the line contains. No earlier keyword occurs in it. |
| ConversionRunner.Ending | python_to_exe.py:151-161 | The signals after the child exits. The last one is the finished signal, and it reports success exactly when the exit code is 0. Only a zero exit code emits anything before it, and that is the 100 percent progress signal. |
| ConversionRunner.AdvanceAsWritten | python_to_exe.py:139-146 | `min(p + step, ceiling)`: at most the ceiling and at most one step up, and equal to one of the two. |
| ConversionRunner.Advance | python_to_exe.py:139-146 | The corrected update. It never falls, rises by at most one step and stops at the ceiling. It agrees with the code whenever the progress is not above the ceiling. |
| ConversionRunner.BumpChain | python_to_exe.py:138-145 | Under either update, the `elif` chain over the four keywords equals the first-match table lookup. A line raises the progress by at most 5 and never past 95, and from 20 on it never drops below 20. Under the corrected update it never falls. |
| ConversionRunner.BumpProgress | python_to_exe.py:138-145 | The `elif` chain, each branch taking `min(progress + step, ceiling)`, computes `Bump(AsWritten, …)`. |
| ConversionRunner.ReadLoop | python_to_exe.py:129-161 | The loop as written emits exactly the signals `Drain(AsWritten, …)` describes. It kills the child exactly when some line finds cancellation requested. |
| ConversionRunner.Run | python_to_exe.py:104-165 | 10 percent, then spawn, then 20 percent, then the read loop, exactly as `RunEvents(AsWritten, child)`. A spawn failure ends in one failure signal carrying the error text. |
| ConversionRunner.Uncancelled | python_to_exe.py:130-133 | How many lines arrive before the first one that finds cancellation requested. |
| ConversionRunner.CancelledEarly | python_to_exe.py:130-133 | Some line finds cancellation requested exactly when the uncancelled lines stop short of the end. |
| ConversionRunner.DrainFinishesOnce | python_to_exe.py:129-161 | The read loop emits exactly one `finished` signal, and it is the last signal. |
| ConversionRunner.DrainOutcome | python_to_exe.py:130-161 | The final signal is cancellation if a line found the flag set. Otherwise it is success for exit code 0 and failure for any other code. |
| ConversionRunner.DrainProgressBounded | python_to_exe.py:136-152 | Under either update, including the code's, every progress value lies between 20 and 95, or is the final 100. |
| ConversionRunner.DrainProgressRises | python_to_exe.py:136-147 | Corrected half of the finding: under the intended update every progress value lies between the start and 95, or is the final 100, and no value is below an earlier one. |
| ConversionRunner.DrainFollowsTrace | python_to_exe.py:130-147 | Without cancellation, the loop emits for the `k`-th line its stripped text and then the `k`-th progress value of the line-by-line update. |
| ConversionRunner.DrainCompletes | python_to_exe.py:151-152 | 100 is emitted exactly when no line found cancellation requested and the exit code is 0. |
| ConversionRunner.DrainLength | python_to_exe.py:129-161 | One log and one progress signal per line before the first that finds cancellation requested. Then only the single cancellation signal follows, or, without cancellation, the ending for the exit code. |
| ConversionRunner.DrainLogsLines | python_to_exe.py:130-136 | The log signals are the stripped lines that arrived before cancellation was seen, all of them and in order, and nothing after it. |
| ConversionRunner.RunFinishesOnce | python_to_exe.py:104-165 | Under either update, including the code's, the thread starts with 10 percent and emits exactly one `finished` signal, last. Every progress value lies between 10 and 95, or is the final 100. |
| ConversionRunner.RunProgressRises | python_to_exe.py:104-152 | Corrected half of the finding: under the intended update no progress value of the thread is below an earlier one. |
| ConversionRunner.RunFollowsTrace | python_to_exe.py:104-147 | Without cancellation, the thread emits the `k`-th value of the progress update from 20 as its `(2k+3)`-th signal. |
| ConversionRunner.RunSucceeds | python_to_exe.py:151-161 | Success, and the 100 percent signal, happen exactly when the child started, no line found cancellation requested and the exit code is 0. |
| ConversionRunner.ProgressTraceRises | python_to_exe.py:128-147 | With the corrected update, progress from any start in [20, 95] never falls and stays in [start, 95]. |
| ConversionRunner.AsWrittenProgressFalls | python_to_exe.py:138-145 | With the update as written, seven `Building` lines take the bar from 20 to 55, and an `Analyzing` line then drops it to 50. |
| ConversionRunner.AsWrittenRunFalls | python_to_exe.py:128-147 | The thread as written, fed those eight lines, emits 55 and then 50. |
| ImportParsing.ImportedName | python_to_exe.py:888 | The package named by one comma part: the stripped part cut before ` as `, then before the first dot. It holds no dot. |
| ImportParsing.FromName | python_to_exe.py:892 | The package named after `from`: the text before ` import`, stripped, then cut before the first dot. It holds no dot. |
| ImportParsing.PartNames | python_to_exe.py:886-890 | The non-empty names of the parts, in order. None is empty or holds a dot. |
| ImportParsing.ModulesOfStatement | python_to_exe.py:885-894 | Only `import ` and `from ` lines name packages. Every name is non-empty and dot-free. |
| ImportParsing.ModulesOfLine | python_to_exe.py:884-894 | The same for a raw line, once it is stripped. |
| ImportParsing.DetectedModules | python_to_exe.py:882-894 | The detected set holds only non-empty, dot-free names. |
| ImportParsing.DetectedFromSomeLine | python_to_exe.py:882-894 | A package is detected exactly when some line of the file names it. |
| ImportParsing.ImportLineRoundTrip | python_to_exe.py:885-890 | `import a,b,c` over plain names yields the names, in order. |
| ImportParsing.PlainName | python_to_exe.py:888 | A plain name is its own package. |
| ImportParsing.SubmoduleImport | python_to_exe.py:888 | `import pkg.sub` yields `pkg`. |
| ImportParsing.AliasedImport | python_to_exe.py:888 | `import pkg as alias` yields `pkg`, not the alias. |
| ImportParsing.DottedAliased | python_to_exe.py:888 | The part `pkg.sub as alias` names `pkg`. |
| ImportParsing.DottedAliasedLine | python_to_exe.py:884-890 | The line `import pkg.sub as alias, other` yields `[pkg, other]`. |
| ImportParsing.FromDotted | python_to_exe.py:884-894 | The line `from pkg.sub import what` yields exactly `pkg`. |
| ImportParsing.FromImport | python_to_exe.py:891-894 | `from pkg import what` yields exactly `pkg`. |
| ImportParsing.RelativeImportSkipped | python_to_exe.py:891-894 | A relative import, `from .x import y` or `from . import y`, yields nothing. |
| HiddenImports.Settings | python_to_exe.py:46-83 | The six templates' check boxes and hidden imports. No template lists an import twice, and only the console and custom templates list none. |
| HiddenImports.Excluded | python_to_exe.py:902-903 | The standard-library names import detection never adds. They are eleven distinct names, among them `sys`, `os` and `time`, and the empty name is not one of them. |
| HiddenImports.MergeAppend | python_to_exe.py:936-940 | Old entries stay in front and in order. What follows is new and has no repeats. Every template import ends up present, and no other name is added. A list without repeats stays without repeats. |
| HiddenImports.MergeAppendPresent | python_to_exe.py:936-940 | Names that are all present already add nothing. |
| HiddenImports.MergeAppendFresh | python_to_exe.py:936-940 | New, distinct names are appended as they stand, in order. |
| HiddenImports.TemplateOnEmpty | python_to_exe.py:936-940 | A template applied to an empty list gives exactly the template's imports. |
| HiddenImports.MergeAppendIdempotent | python_to_exe.py:936-940 | Appending the same template imports twice gives the list the first time gave. |
| HiddenImports.MainWindow.constructor | python_to_exe.py:504-509 | The list starts empty, with `--onefile` checked and `--windowed` not. |
| HiddenImports.MainWindow.ApplySelectedTemplate | python_to_exe.py:926-943 | With no template selected, nothing changes. Otherwise both check boxes take the template's values and the list becomes `MergeAppend(old list, template imports)`. |
| HiddenImports.MainWindow.AppendMissing | python_to_exe.py:936-940 | The loop's result is `MergeAppend(old list, imports)`. The check boxes are untouched. |
| HiddenImports.MainWindow.DetectImports | python_to_exe.py:868-907 | A missing source or an unreadable file changes nothing. Otherwise the old list is kept as a prefix. The appended names, without repeats, are exactly the detected packages that were neither listed nor excluded. `added` counts them and `found` counts the detected set. |
| HiddenImports.MainWindow.AppendNew | python_to_exe.py:897-905 | The loop over the detected set keeps the old list as a prefix. It appends exactly the new, non-excluded names, each once, and counts them. |

## Left out

- Qt widgets, layouts, dialogs and message boxes. The log and message texts, including the banner, timestamp and command echo of `run` (python_to_exe.py:106-110, 153-160), the log lines of `detect_imports` and `apply_selected_template`, and the template description of `apply_template`. These are display only.
- Starting the child process and reading its pipe. `subprocess.Popen` becomes the `Child` value. `process.wait` and `process.terminate` are reduced to the exit code and the `terminated` result.
- Exceptions raised while reading the child's output or waiting for it (python_to_exe.py:163-165). Only a child that cannot be started is modelled, as the `Crashed` outcome.
- `ConversionThread.cancel` and the threads themselves. Cancellation is a flag sampled once per line. A cancel that terminates the child after its last line has been read, or that closes the pipe before the next line, is reported through the exit code. It is not modelled as a separate case.
- Reading the file in `detect_imports`. The decoded text is a parameter, and a failed read is `None`. Python's newline translation on reading is taken to have happened already.
- `DetectImports` and `AppendNew`: the order in which new names are appended is Python's set iteration order, which is not determined. The contract states which names are appended, not in what order.
- `Paths.Join`: only joining a plain child name (`dist`, `build`) is modelled, the only use the builder makes of `os.path.join`.
- `Paths.Basename`: UNC drive prefixes (`\\server\share`) of Windows paths are not modelled. Only an `X:` drive is dropped.
- The PyInstaller availability check and installation, settings save and load, the last-used directory, and opening the output folder. These are file and process I/O outside the modelled core.

## Findings

| source | as written | input that shows it | evidently intended | confidence | as-written member | corrected member |
|---|---|---|---|---|---|---|
| python_to_exe.py:138-145 | `progress = min(progress + step, ceiling)`, even when the progress is already above that keyword's ceiling | seven lines containing `Building` take the bar from 20 to 55, then a line containing `Analyzing` sets it to `min(60, 50) = 50` | the bar never moves back: a keyword whose ceiling is already passed leaves the progress as it is | not executed | ConversionRunner.AsWrittenProgressFalls | ConversionRunner.ProgressTraceRises |
