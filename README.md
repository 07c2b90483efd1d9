# Blockbench OBJ fixer — a verified model of its conversion core

The tool takes Wavefront OBJ files exported from Blockbench, has Blender clean them,
renames repeated object declarations (`o <name>` lines) so that each repeat of a name
gets a numeric suffix, moves the result to the chosen output folder, and can write two
companion files: a Java class with one `public static final String` constant per group
name, and a plain list of the group names. A small desktop window collects the files,
an output folder, a model output name and a Java class name per file, validates them
and runs the conversion for each file in turn.

This project models, in Dafny:

- `logic/converter_core.py` (module `ConverterCore`): `deduplicate_obj` as a loop over
  the lines of the file with a `map<string, nat>` counter (`Deduplicate`, `ReadLines`,
  `DedupLine`), proved equal to a line-by-line specification (`RewrittenLines`,
  `RenameLog`, the sorted keys of the counter); the two writers (`WriteJavaClass`,
  `WriteTxtList`) proved to build the text given by `JavaText` and `ListingText`; and
  `process_obj_file` (`ProcessObjFile`) as a trace of logger messages and file effects
  against the answers of the file system and of the Blender stage (a `World` value),
  proved equal to the specification `Process`.
- `gui_app.py` (module `GuiApp`) without widgets: the validation in `run_conversion`
  (`Validate`), the batch loop `run` (`RunBatch`), the merge of picked files in
  `browse_files` (`MergeSelection`), the `toggle_txt_option` rule, and the window state
  as the class `App`.
- The Python built-ins these rely on: `str.strip`, `split(" ", 1)`, `upper`,
  `replace`, `str(n)`, string ordering and `sorted` (modules `Text` and `Sorting`), and
  the Windows `os.path` functions as Python 3.12's `ntpath` defines them (module
  `Paths`): `splitroot` with drive letters, roots and UNC drives, `basename` after the
  drive and root, the name half of `splitext` with its hidden-file rule, and `join`
  with every case of the second part: relative, rooted, on another drive, or on the
  same drive letter in another case. Python exceptions become `Result`/`Option` values
  (module `Wrappers`).

The model follows the code where it differs from how the tool's design is sometimes
described:

- Names are counted verbatim. No `.001` → `_001` normalisation happens anywhere.
- `deduplicate_obj` returns the sorted raw names (the counter's keys), not the suffixed
  ones.
- Emitted names are distinct only among the declarations of one raw name. The file
  `n, n, n_1` is rewritten to `n, n_1, n_1` (`CrossNameCollision`).
- The temp-folder sweep is not in a `finally`. It runs only when `process_obj_file`
  gets that far, and is skipped when any earlier step raises.
- The ".txt" checkbox has no command. With Java on, it can still be switched on, so
  both companion files may be written (`App.ClickTxtCheckbox`).
- `browse_files` rebuilds every row, so the names already typed into the rows are
  cleared (`App.BrowseFiles`).

## Model

| member | source | states |
|---|---|---|
| ConverterCore.Deduplicate | logic/converter_core.py:8-29 | Fails exactly when some `o ` line has no name after `strip().split(" ", 1)`, and reports the first such line. Otherwise it returns the rewritten lines, the sorted raw names and the renaming log, each equal to its line-by-line specification |
| ConverterCore.ReadLines | logic/converter_core.py:13-24 | The loop stops at the first nameless declaration. Otherwise it ends with the counter, the output lines and the log that the specification gives for the whole file |
| ConverterCore.DedupLine | logic/converter_core.py:15-24 | One turn of the loop. A declaration of `n` seen `c` times before becomes `o n` (c = 0) or `o n_c`, adds a log entry when c > 0, and bumps the count of `n`. Any other line is copied, and nothing else changes |
| ConverterCore.StripSplit | logic/converter_core.py:16 | `line.strip().split(" ", 1)` on a declaration gives `["o", n]` when a name `n` is present, else `["o"]` |
| ConverterCore.StripSplitDecl | logic/converter_core.py:16 | The same split, as a property of `Strip` and `SplitOnce` over all declaration lines |
| ConverterCore.DeclNameMissing | logic/converter_core.py:16 | A declaration has no element [1] exactly when everything after its `o` is whitespace |
| ConverterCore.TallyCounts | logic/converter_core.py:17-21 | The counter holds exactly the names seen, each mapped to its number of occurrences |
| ConverterCore.RewrittenLinesAt | logic/converter_core.py:14-24 | The output has as many lines as the input, in the same order. A non-declaration is copied. The declaration of `n` at line j becomes `"o " + n + "\n"` when no earlier line declares `n`, otherwise `"o " + n + "_" + str(k) + "\n"`, where k counts the earlier lines that declare `n` |
| ConverterCore.EmittedDistinctPerName | logic/converter_core.py:17-21 | Two declarations of the same raw name are rewritten to different lines |
| ConverterCore.EmittedNameInjective | logic/converter_core.py:18 | Different occurrence counts give different emitted names for the same raw name |
| ConverterCore.CrossNameCollision | logic/converter_core.py:17-22 | Emitted names can collide across raw names: `n, n, n_1` becomes `n, n_1, n_1` |
| ConverterCore.ReturnedNames | logic/converter_core.py:21-29 | The returned list is strictly ascending, and a name is in it exactly when some line declares it as a raw name |
| ConverterCore.RenameLogLength | logic/converter_core.py:18-21 | The log has (number of declarations) − (number of distinct raw names) entries |
| ConverterCore.RenameLogAt | logic/converter_core.py:18-21 | Each repeated declaration's entry `n → n_k` sits in the log right after the entries of the lines above it, so the entries come in file order |
| ConverterCore.RenameLogMembers | logic/converter_core.py:18-21 | Every log entry is the entry of some repeated declaration, and every repeated declaration has its entry in the log |
| ConverterCore.RewrittenFileRoundTrip | logic/converter_core.py:13-27 | Writing the rewritten lines and reading the file back gives the same lines, as many as the input had |
| Sorting.SortedKeys | logic/converter_core.py:29 | `sorted(group_counts.keys())` returns the one ascending list of the keys |
| Sorting.SortedSpec | logic/converter_core.py:29 | The sorted list is strictly ascending, holds exactly the keys, and has one element per key |
| Sorting.AscendingUnique | logic/converter_core.py:29 | Two strictly ascending lists with the same elements are equal, so the returned list depends only on the set of names |
| ConverterCore.WriteJavaClass | logic/converter_core.py:32-41 | Returns `os.path.join(output_dir, class_name + ".java")` and the text written: the header, one constant line per name in the given order, and `}` |
| ConverterCore.BuildJavaText | logic/converter_core.py:36-40 | The writes to the Java file add up to the header, one constant line per name in the given order, and `}` |
| ConverterCore.ConstNameAt | logic/converter_core.py:38 | The constant's identifier is the name with `-` and `.` replaced by `_` and ASCII letters upper-cased, character by character |
| ConverterCore.ConstNameCollision | logic/converter_core.py:38 | Identifier collisions are not checked: `a.b`, `a-b` and `a_b` all become `A_B` |
| ConverterCore.JavaTextLines | logic/converter_core.py:36-40 | Read back, the Java file has its header, one constant line per name in order, and the closing brace, so it has two more lines than there are names |
| ConverterCore.WriteTxtList | logic/converter_core.py:44-50 | Returns `os.path.join(output_dir, output_name + ".txt")` and the text written: each name followed by a line break, in the given order |
| ConverterCore.ListingTextLines | logic/converter_core.py:47-49 | Read back, the list has exactly one line per name, holding that name |
| ConverterCore.ProcessObjFile | logic/converter_core.py:53-93 | The logger calls, file effects and raised error of one call equal the specification `Process` |
| ConverterCore.ProcessEffects | logic/converter_core.py:53-93 | A call that raises has written, moved and removed nothing. A call that returns does these steps in order: write the rewritten text over the cleaned file, move it to `<output_name>.obj`, write the Java class only for a non-empty class name, write the list only when asked, then remove the temp files it can |
| ConverterCore.MissingInputFirst | logic/converter_core.py:54-55 | A missing input raises `File not found: <path>` before anything is logged or cleaned |
| ConverterCore.ProcessSucceeds | logic/converter_core.py:54-64 | The call returns normally exactly when the input exists, Blender returns a path holding a file, and every declaration in that file has a name |
| ConverterCore.ReportDedup | logic/converter_core.py:66-73 | Logs the rename count and each entry, or that there were no duplicates, and then the number of groups |
| ConverterCore.WriteCompanions | logic/converter_core.py:80-86 | The Java class is written only for a truthy class name, then the list only when `generate_txt` is set |
| ConverterCore.SweepTemp | logic/converter_core.py:88-93 | Every temp entry is removed in listing order. An entry whose removal raises is logged as a warning and the sweep goes on |
| ConverterCore.CompanionsReadBack | logic/converter_core.py:80-86 | For any cleaned text, the list written has one line per returned name, and the Java class has two more lines than that |
| GuiApp.Validate | gui_app.py:166-192 | Collects exactly the error list `ValidationErrors`: the selection's errors, then the rows' errors |
| GuiApp.CheckSelection | gui_app.py:166-175 | "No OBJ files selected." when there are no rows, then "No Output Folder selected." when no non-empty folder is set |
| GuiApp.CheckRow | gui_app.py:177-191 | A blank (whitespace-only) model name is reported first. A blank Java name is reported after it, and only while Java generation is on |
| GuiApp.ValidationPasses | gui_app.py:166-195 | The error list is empty exactly when there is a row, a folder is set, every model name is non-blank, and every Java name is non-blank when Java is on |
| GuiApp.ValidationOrder | gui_app.py:167-189 | The list opens with the missing-files error, then the missing-folder error, then one error per missing name, rows in list order |
| GuiApp.RowErrorsPlace | gui_app.py:177-191 | Row i's errors sit right after those of the rows before it, the model-name error before the Java-name error |
| GuiApp.JavaIgnoredWhenOff | gui_app.py:186-189 | With Java off, rows that differ only in their Java fields give the same errors |
| GuiApp.BlankModelNameReported | gui_app.py:178-183 | A whitespace-only model name counts as missing, and the first error of the row is about its file |
| GuiApp.EntryErrorsEmpty | gui_app.py:177-189 | A row adds no error exactly when its model name is non-blank and, while Java is on, its Java name is non-blank |
| GuiApp.ProblemTextIdentifies | gui_app.py:170-189 | The four messages ("No OBJ files selected.", "No Output Folder selected.", "Missing Model Output Name for: " and "Missing Java Class Name for: " followed by the file's base name) are equal exactly when they are of the same kind and name files with the same base name |
| GuiApp.MergeSelection | gui_app.py:128-130 | The merge loop returns `AppendNew(selected, picked)` |
| GuiApp.AppendNewProperties | gui_app.py:128-130 | The old selection stays as a prefix. The result holds exactly the old and the picked files. A list without duplicates stays without duplicates |
| GuiApp.RunEntry | gui_app.py:203-216 | One iteration announces the file, runs `process_obj_file`, then logs the output folder or the raised error. It reports whether the call raised |
| GuiApp.RunNext | gui_app.py:202-216 | One turn of the batch loop extends the log and the error flag by call i, whatever the earlier calls did |
| GuiApp.RunBatch | gui_app.py:199-222 | Every row is processed in order. `had_error` is true exactly when some call raised. The summary line comes last |
| GuiApp.AnyFailedExists | gui_app.py:201-215 | `had_error` holds exactly when some call raised |
| GuiApp.EveryEntryAttempted | gui_app.py:202-216 | Call i's steps sit in the batch log right after those of calls 0..i−1 and start with its "Processing" line, whatever the earlier calls did |
| GuiApp.JobFor | gui_app.py:204-212 | The call for a row gets the row's file as input, the ".txt" flag as set, and a Java class name exactly when Java is on |
| GuiApp.JobFolder | gui_app.py:208 | The output subfolder for the file `dir/x.obj` is `os.path.join(output_dir, x)` |
| GuiApp.RaisedMessage | gui_app.py:214-216 | The error logged for a call that raised is "File not found: <path>" for a missing input, the cleaner's own message when it raised, "Blender failed to generate cleaned OBJ." when the cleaned file is missing, and "list index out of range" for a declaration without a name |
| GuiApp.JobsAfterValidation | gui_app.py:204-212 | After validation, each call gets a Java class name exactly when Java is on (None when off), a non-empty output name, and the ".txt" flag |
| GuiApp.LogMessages | gui_app.py:156-158 | The log box gets one line per logger message and loop message, in order; file effects show nothing |
| GuiApp.App.ToggleTxtOption | gui_app.py:95-97 | With Java on, the ".txt" option is off afterwards. With Java off, nothing changes |
| GuiApp.App.ClickJavaCheckbox | gui_app.py:88-97 | Clicking the Java box flips it, then turns ".txt" off if Java is now on |
| GuiApp.App.ClickTxtCheckbox | gui_app.py:89 | The ".txt" box flips only itself |
| GuiApp.App.BrowseFiles | gui_app.py:125-131 | Appends the new picked files, rebuilds one blank row per selected file, and keeps "Java on ⇒ .txt off" |
| GuiApp.App.EditEntry | gui_app.py:114-116 | Typing into a row's two fields changes only that row's texts |
| GuiApp.App.ChooseOutputDir | gui_app.py:133-140 | A cancelled dialog changes nothing. A chosen folder is stored and logged |
| GuiApp.App.RunConversion | gui_app.py:160-224 | Any validation error shows the joined messages and runs nothing. Otherwise every row is converted and the log box receives "Starting conversion..." followed by the batch's lines |
| GuiApp.App.constructor | gui_app.py:41-45 | Starts with no files, no folder, Java on and ".txt" off |
| GuiApp.BlankEntries | gui_app.py:103-122 | `refresh_fields` builds one row per selected file, in order, with both fields empty |
| Paths.BaseStart | gui_app.py:180 | `os.path.basename` starts after the drive, either right after it or right after a separator, and has no separator in it |
| Paths.BasenameAfter | gui_app.py:208 | A separator past the drive with none after it ends the path before the base name |
| Paths.Stem | gui_app.py:208 | `splitext(name)[0]` is a prefix of the name. It is shorter exactly when some dot has a non-dot before it, and then it ends at the last dot |
| Paths.StemOfObj | gui_app.py:208 | The stem of `x.obj` is `x` when `x` has a character other than a dot; a name made only of dots keeps its extension |
| Paths.StemOfBasename | gui_app.py:208 | The stem of the base name of `dir/x.obj` is `x` when the folder part holds the whole drive |
| Paths.JoinRelative | gui_app.py:208 | Joining a part with neither drive nor root appends it, with a `\` in between unless the first part is empty, ends in a separator, or is a bare drive or root while the second part is empty or the first ends in a drive colon |
| Paths.JoinRooted | gui_app.py:208 | A second part with a root replaces the first, keeping the first part's drive when the second has none |
| Paths.JoinOtherDrive | gui_app.py:208 | A rootless second part on another drive (compared lower-cased) replaces the first entirely |
| Paths.JoinSameDrive | gui_app.py:208 | A rootless `X:` second part on the same drive letter puts its own drive in place of the first's and continues the first part's path |
| Text.StripSpec | gui_app.py:178-179 | `strip()` is empty exactly for an all-whitespace text, and otherwise neither starts nor ends with whitespace |
| Text.ParseNatToString | logic/converter_core.py:18 | The decimal suffix `str(k)` reads back as `k` |

## Left out

- The Blender stage (`run_blender_cleaner`, `logic/blender_cleaner.py`) is not part of this model. It runs an external process on float geometry. Its outcome is a parameter: it raised, or it returned a path with or without a file behind it. The file name rule `.replace(".obj", "_cleaned.obj")` is not modelled.
- `prompt_blender_missing`, message boxes, `webbrowser`, `sys.exit`, the dependency and Python-version checks, `setup.py` and `main.py`: process control and UI, with no logic to verify.
- File-system effects are events in a trace, not changes to a modelled disk. This covers `open`, `writelines`, `os.makedirs`, `shutil.move`, `os.listdir` and `os.remove`. What `os.path.isfile`, `os.path.exists`, `os.listdir` and a failing `os.remove` answer is given by the `World` parameter.
- I/O errors while reading, writing or moving (`OSError` from `open`, `write`, `shutil.move`, `os.makedirs`) are not modelled. Those steps are taken to succeed. The same holds for the GUI's `os.makedirs(out_subdir)` before the "Processing" line.
- Text-mode newline translation (`\r\n` read as `\n`, and `\n` written as `\r\n` on Windows) and file encodings are not modelled. The model works on the decoded text with `\n` line ends. The Java file's platform default encoding is not modelled either.
- ConverterCore.ConstNameAt: `str.upper()` is modelled for ASCII letters only. Python also upper-cases other scripts and expands characters like `ß` to `SS`, which the model does not capture.
- Paths.Join: drives are compared after an ASCII-only `lower()`. Python also lower-cases other letters, which the model does not capture.
- Paths.Join: carries no contract of its own. What it returns is stated case by case by `JoinRelative`, `JoinRooted`, `JoinOtherDrive` and `JoinSameDrive`. A rootless UNC second part on the same drive as the first is modelled by `Join` but has no lemma of its own.
- Paths: the `ntpath` of Python 3.12 is modelled. Earlier versions split UNC and device paths (`\\?\…`, `\\.\…`) differently, and that older behaviour is not captured.
- Paths.StemOfBasename: does not cover a folder part that is a bare `\\server` UNC prefix, whose drive runs into the file name.
- The text of an exception raised by the Blender stage is carried as an opaque string. `str(e)` of the other exceptions is written out.
- The `threading.Thread` launch is not modelled. The loop body runs sequentially, and the model runs it in the caller.
- Widget layout, colours, border highlighting, the output-tree preview (`update_output_preview`, with its recursive `os.listdir`) and the enabling and disabling of the Java fields are not modelled.
