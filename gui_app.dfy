/**
 * The bookkeeping of the conversion window (gui_app.py) without its widgets: the
 * validation that `run_conversion` performs before anything runs, the batch loop that
 * calls `process_obj_file` once per selected file, the merge of newly picked files into
 * the selection, and the rule that switching the Java class on switches the group list
 * off. The window's state is the class `App`; a text field is the text typed into it.
 */
module GuiApp {
  import opened Wrappers
  import opened Text
  import opened Paths
  import opened ConverterCore

  /** One row of the file list: the selected path and the texts typed into its Java
      class field and its model output name field. */
  datatype Entry = Entry(file: string, javaText: string, modelText: string)

  // ---------------------------------------------------------------------------
  // Validation (run_conversion)

  /** The reasons `run_conversion` refuses to start. A row's problem names the row's file. */
  datatype Problem = NoFiles | NoFolder | MissingModel(file: string) | MissingJava(file: string)

  /** The message `run_conversion` shows for a problem. A row's message labels the file
      with its base name. */
  function ProblemText(p: Problem): string {
    match p
    case NoFiles => "No OBJ files selected."
    case NoFolder => "No Output Folder selected."
    case MissingModel(file) => ModelPrefix + Basename(file)
    case MissingJava(file) => JavaPrefix + Basename(file)
  }

  const ModelPrefix := "Missing Model Output Name for: "
  const JavaPrefix := "Missing Java Class Name for: "

  /** What a message shows of its problem: the kind and, for a row, the base name of its
      file. */
  function Shown(p: Problem): Problem {
    match p
    case MissingModel(file) => MissingModel(Basename(file))
    case MissingJava(file) => MissingJava(Basename(file))
    case _ => p
  }

  /** The kind of a problem, as its message tells it by three characters. Character 0
      tells the selection messages (`N` of "No ...") from the row messages (`M` of
      "Missing ..."); character 4 tells the two selection messages apart (`B` of "No OBJ"
      against `u` of "No Output"); character 8 tells the two row messages apart (`M` of
      "Model" against `J` of "Java"). Characters 0, 4 and 8 of each message together
      distinguish all four kinds, which is what `ProblemTextIdentifies` needs. */
  function Marks(p: Problem): seq<char> {
    match p
    case NoFiles => "NBi"
    case NoFolder => "Nut"
    case MissingModel(_) => "MiM"
    case MissingJava(_) => "MiJ"
  }

  /** Every message is long enough to show its kind's marks. */
  lemma MessageMarks(p: Problem)
    ensures var t := ProblemText(p); |t| > 8 && [t[0], t[4], t[8]] == Marks(p)
  {
    match p
    case MissingModel(file) =>
      PrefixesMarked();
      PrefixMarks(ModelPrefix, Basename(file), "MiM");
    case MissingJava(file) =>
      PrefixesMarked();
      PrefixMarks(JavaPrefix, Basename(file), "MiJ");
    case _ =>
  }

  /** The row messages' prefixes carry their kinds' marks. */
  lemma PrefixesMarked()
    ensures |ModelPrefix| > 8 && [ModelPrefix[0], ModelPrefix[4], ModelPrefix[8]] == "MiM"
    ensures |JavaPrefix| > 8 && [JavaPrefix[0], JavaPrefix[4], JavaPrefix[8]] == "MiJ"
  {
  }

  /** A message that starts with a prefix shows the prefix's marks. */
  lemma PrefixMarks(pre: string, u: string, marks: seq<char>)
    requires |pre| > 8 && [pre[0], pre[4], pre[8]] == marks
    ensures var t := pre + u; |t| > 8 && [t[0], t[4], t[8]] == marks
  {
  }

  /** Texts after a common prefix are equal exactly when the whole texts are. */
  lemma AfterPrefix(pre: string, u: string, v: string)
    ensures pre + u == pre + v <==> u == v
  {
    if pre + u == pre + v {
      assert u == (pre + u)[|pre|..] && v == (pre + v)[|pre|..];
    }
  }

  /** Two problems give the same message exactly when they show the same thing: the same
      kind and, for rows, files with the same base name. Files of the same name in
      different folders cannot be told apart in the error box. */
  lemma ProblemTextIdentifies(p: Problem, q: Problem)
    ensures ProblemText(p) == ProblemText(q) <==> Shown(p) == Shown(q)
  {
    MessageMarks(p);
    MessageMarks(q);
    if p.MissingModel? && q.MissingModel? {
      AfterPrefix(ModelPrefix, Basename(p.file), Basename(q.file));
    } else if p.MissingJava? && q.MissingJava? {
      AfterPrefix(JavaPrefix, Basename(p.file), Basename(q.file));
    }
  }

  /** The texts of a list of problems, in order. */
  function ProblemTexts(ps: seq<Problem>): (r: seq<string>)
    ensures |r| == |ps|
  {
    if ps == [] then [] else ProblemTexts(ps[..|ps| - 1]) + [ProblemText(ps[|ps| - 1])]
  }

  /** Python truthiness of the output folder: chosen and non-empty. */
  predicate HasFolder(outputDir: Option<string>) {
    outputDir.Some? && outputDir.value != ""
  }

  /** The errors one row contributes: its model name first, then its Java class name,
      which is looked at only while Java generation is on. */
  function EntryErrors(e: Entry, createJava: bool): seq<Problem> {
    (if AllSpace(e.modelText) then [MissingModel(e.file)] else [])
    + (if createJava && AllSpace(e.javaText) then [MissingJava(e.file)] else [])
  }

  /** The errors of the first `k` rows, row by row in list order. */
  function RowErrors(entries: seq<Entry>, k: nat, createJava: bool): seq<Problem>
    requires k <= |entries|
  {
    if k == 0 then [] else RowErrors(entries, k - 1, createJava) + EntryErrors(entries[k - 1], createJava)
  }

  /** The errors about the selection as a whole: no files, then no folder. */
  function SelectionErrors(entries: seq<Entry>, outputDir: Option<string>): seq<Problem> {
    (if entries == [] then [NoFiles] else [])
    + (if !HasFolder(outputDir) then [NoFolder] else [])
  }

  /** The list `run_conversion` collects: the selection's errors, then the rows'. */
  function ValidationErrors(entries: seq<Entry>, outputDir: Option<string>, createJava: bool): seq<Problem> {
    SelectionErrors(entries, outputDir) + RowErrors(entries, |entries|, createJava)
  }

  /** Everything the conversion needs: a file, a folder, a model name on every row and,
      while Java generation is on, a class name on every row. Blank names count as missing. */
  predicate Ready(entries: seq<Entry>, outputDir: Option<string>, createJava: bool) {
    && entries != []
    && HasFolder(outputDir)
    && (forall i :: 0 <= i < |entries| ==> !AllSpace(entries[i].modelText))
    && (createJava ==> forall i :: 0 <= i < |entries| ==> !AllSpace(entries[i].javaText))
  }

  /** The first two checks of `run_conversion`. */
  method CheckSelection(entries: seq<Entry>, outputDir: Option<string>) returns (errors: seq<Problem>)
    ensures errors == SelectionErrors(entries, outputDir)
  {
    errors := [];
    if entries == [] {
      errors := errors + [NoFiles];
    }
    if outputDir.None? || outputDir.value == "" {
      errors := errors + [NoFolder];
    }
  }

  /** One iteration of the row loop of `run_conversion`. */
  method CheckRow(e: Entry, createJava: bool) returns (errors: seq<Problem>)
    ensures errors == EntryErrors(e, createJava)
  {
    errors := [];
    var modelName := Strip(e.modelText);
    var javaName := Strip(e.javaText);
    StripSpec(e.modelText);
    StripSpec(e.javaText);
    if modelName == "" {
      errors := errors + [MissingModel(e.file)];
    }
    assert errors == if AllSpace(e.modelText) then [MissingModel(e.file)] else [];
    if createJava {
      if javaName == "" {
        errors := errors + [MissingJava(e.file)];
      }
    }
  }

  /** The collecting part of `run_conversion`. */
  method Validate(entries: seq<Entry>, outputDir: Option<string>, createJava: bool) returns (errors: seq<Problem>)
    ensures errors == ValidationErrors(entries, outputDir, createJava)
  {
    errors := CheckSelection(entries, outputDir);
    ghost var head := errors;
    for i := 0 to |entries|
      invariant errors == head + RowErrors(entries, i, createJava)
    {
      var row := CheckRow(entries[i], createJava);
      errors := errors + row;
    }
  }

  lemma {:induction false} RowErrorsEmpty(entries: seq<Entry>, k: nat, createJava: bool)
    requires k <= |entries|
    ensures RowErrors(entries, k, createJava) == [] <==>
      && (forall i :: 0 <= i < k ==> !AllSpace(entries[i].modelText))
      && (createJava ==> forall i :: 0 <= i < k ==> !AllSpace(entries[i].javaText))
  {
    if k > 0 {
      RowErrorsEmpty(entries, k - 1, createJava);
      EntryErrorsEmpty(entries[k - 1], createJava);
    }
  }

  /** A row contributes no error exactly when its names are filled in. */
  lemma EntryErrorsEmpty(e: Entry, createJava: bool)
    ensures EntryErrors(e, createJava) == [] <==> !AllSpace(e.modelText) && (createJava ==> !AllSpace(e.javaText))
  {
  }

  /** The conversion starts exactly when nothing is missing. */
  lemma ValidationPasses(entries: seq<Entry>, outputDir: Option<string>, createJava: bool)
    ensures ValidationErrors(entries, outputDir, createJava) == [] <==> Ready(entries, outputDir, createJava)
  {
    RowErrorsEmpty(entries, |entries|, createJava);
  }

  /** How many names are missing among the first `k` rows. */
  function CountMissing(entries: seq<Entry>, k: nat, createJava: bool): nat
    requires k <= |entries|
  {
    if k == 0 then 0
    else
      var e := entries[k - 1];
      CountMissing(entries, k - 1, createJava)
        + (if AllSpace(e.modelText) then 1 else 0)
        + (if createJava && AllSpace(e.javaText) then 1 else 0)
  }

  lemma {:induction false} RowErrorsCount(entries: seq<Entry>, k: nat, createJava: bool)
    requires k <= |entries|
    ensures |RowErrors(entries, k, createJava)| == CountMissing(entries, k, createJava)
  {
    if k > 0 {
      RowErrorsCount(entries, k - 1, createJava);
    }
  }

  /** The error list opens with the missing files, then the missing folder, and then
      has one error per missing name, the rows in list order. */
  lemma ValidationOrder(entries: seq<Entry>, outputDir: Option<string>, createJava: bool)
    ensures var errs := ValidationErrors(entries, outputDir, createJava);
      var head := (if entries == [] then 1 else 0) + (if HasFolder(outputDir) then 0 else 1);
      && |errs| == head + CountMissing(entries, |entries|, createJava)
      && (entries == [] ==> errs[0] == NoFiles)
      && (!HasFolder(outputDir) ==> errs[head - 1] == NoFolder)
      && errs[head..] == RowErrors(entries, |entries|, createJava)
  {
    RowErrorsCount(entries, |entries|, createJava);
  }

  /** The errors of the first `j` rows stay at the front as more rows are checked. */
  lemma {:induction false} RowErrorsPrefix(entries: seq<Entry>, j: nat, k: nat, createJava: bool)
    requires j <= k <= |entries|
    ensures |RowErrors(entries, j, createJava)| <= |RowErrors(entries, k, createJava)|
    ensures forall n :: 0 <= n < |RowErrors(entries, j, createJava)| ==>
      RowErrors(entries, k, createJava)[n] == RowErrors(entries, j, createJava)[n]
    decreases k
  {
    if j < k {
      RowErrorsPrefix(entries, j, k - 1, createJava);
      PrefixStep(RowErrors(entries, j, createJava), RowErrors(entries, k - 1, createJava), EntryErrors(entries[k - 1], createJava));
    }
  }

  /** A prefix of a list stays a prefix when more is appended. */
  lemma PrefixStep<T>(a: seq<T>, b: seq<T>, c: seq<T>)
    requires |a| <= |b| && forall n :: 0 <= n < |a| ==> b[n] == a[n]
    ensures |a| <= |b + c| && forall n :: 0 <= n < |a| ==> (b + c)[n] == a[n]
  {
  }

  lemma RowErrorsUnfold(entries: seq<Entry>, i: nat, createJava: bool)
    requires i < |entries|
    ensures RowErrors(entries, i + 1, createJava) == RowErrors(entries, i, createJava) + EntryErrors(entries[i], createJava)
  {
  }

  /** The errors of row `i` sit right after those of the rows before it, whatever
      follows: the model name error first, then the Java class name error. */
  lemma RowErrorsPlace(entries: seq<Entry>, i: nat, k: nat, createJava: bool)
    requires i < k <= |entries|
    ensures |RowErrors(entries, i, createJava)| + |EntryErrors(entries[i], createJava)| <= |RowErrors(entries, k, createJava)|
    ensures forall n :: 0 <= n < |EntryErrors(entries[i], createJava)| ==>
      RowErrors(entries, k, createJava)[|RowErrors(entries, i, createJava)| + n] == EntryErrors(entries[i], createJava)[n]
  {
    RowErrorsPrefix(entries, i + 1, k, createJava);
    RowErrorsUnfold(entries, i, createJava);
  }

  /** While Java generation is off, the Java fields are not looked at: rows that differ
      only there give the same errors. */
  lemma {:induction false} JavaIgnoredWhenOff(entries: seq<Entry>, other: seq<Entry>, k: nat)
    requires k <= |entries| == |other|
    requires forall i :: 0 <= i < |entries| ==>
      other[i].file == entries[i].file && other[i].modelText == entries[i].modelText
    ensures RowErrors(entries, k, false) == RowErrors(other, k, false)
  {
    if k > 0 {
      JavaIgnoredWhenOff(entries, other, k - 1);
    }
  }

  /** A row whose model name is only whitespace is reported as missing one. */
  lemma BlankModelNameReported(e: Entry, createJava: bool)
    requires AllSpace(e.modelText)
    ensures EntryErrors(e, createJava)[0] == MissingModel(e.file)
  {
  }

  // ---------------------------------------------------------------------------
  // Merging picked files (browse_files)

  predicate NoDuplicates(s: seq<string>) {
    forall i, j :: 0 <= i < j < |s| ==> s[i] != s[j]
  }

  /** `selected` with each picked file not yet in it appended, in pick order. */
  function AppendNew(selected: seq<string>, picked: seq<string>): seq<string> {
    if picked == [] then selected
    else
      var r := AppendNew(selected, picked[..|picked| - 1]);
      var f := picked[|picked| - 1];
      if f in r then r else r + [f]
  }

  /** The merging loop of `browse_files`. */
  method MergeSelection(selected: seq<string>, picked: seq<string>) returns (r: seq<string>)
    ensures r == AppendNew(selected, picked)
  {
    r := selected;
    for i := 0 to |picked|
      invariant r == AppendNew(selected, picked[..i])
    {
      assert picked[..i + 1][..i] == picked[..i];
      if picked[i] !in r {
        r := r + [picked[i]];
      }
    }
    assert picked[..|picked|] == picked;
  }

  /** The existing selection stays in front, every picked file ends up in the list,
      nothing else is added, and a list without repeats stays without repeats. */
  lemma {:induction false} AppendNewProperties(selected: seq<string>, picked: seq<string>)
    ensures var r := AppendNew(selected, picked);
      && |selected| <= |r| && r[..|selected|] == selected
      && (forall x :: x in r <==> x in selected || x in picked)
      && (NoDuplicates(selected) ==> NoDuplicates(r))
  {
    if picked != [] {
      var init := picked[..|picked| - 1];
      AppendNewProperties(selected, init);
      var r := AppendNew(selected, init);
      var f := picked[|picked| - 1];
      assert picked == init + [f];
      if f !in r {
        assert (r + [f])[..|selected|] == r[..|selected|];
      }
    }
  }

  // ---------------------------------------------------------------------------
  // The batch (run)

  /** The call `run` makes for one row: the output subfolder is the file's stem inside
      the output folder, the Java class name is the stripped field only while Java
      generation is on, and the output name is the stripped model field. */
  function JobFor(e: Entry, outputDir: string, createJava: bool, createTxt: bool): (r: Request)
    ensures r.inputPath == e.file && r.generateTxt == createTxt
    ensures r.javaClass.Some? <==> createJava
  {
    Request(
      e.file,
      Join(outputDir, Stem(Basename(e.file))),
      if createJava then Some(Strip(e.javaText)) else None,
      createTxt,
      Strip(e.modelText))
  }

  /** The output subfolder for the file `dir/x.obj` is `x` inside the output folder. */
  lemma JobFolder(e: Entry, outputDir: string, createJava: bool, createTxt: bool, dir: string, x: string)
    requires e.file == dir + "/" + x + ".obj"
    requires forall i :: 0 <= i < |x| ==> !IsSep(x[i])
    requires exists i :: 0 <= i < |x| && x[i] != '.'
    requires SplitRoot(e.file).driveEnd <= |dir|
    ensures JobFor(e, outputDir, createJava, createTxt).outputDir == Join(outputDir, x)
  {
    StemOfBasename(dir, x);
  }

  /** `str(e)` for what `process_obj_file` raises. */
  function ErrorText(err: ProcessError): string {
    match err
    case InputNotFound(m) => m
    case CleaningFailed(r) => r
    case CleanedFileMissing(m) => m
    case MissingGroupName => "list index out of range"
  }

  /** The text after "Error processing <file>: " for a call that raises: the missing
      input's path, the cleaner's own message, the missing cleaned file, or the
      `IndexError` of a declaration without a name. */
  lemma RaisedMessage(req: Request, w: World)
    requires Process(req, w).error.Some?
    ensures ErrorText(Process(req, w).error.value) ==
      if !w.inputIsFile then "File not found: " + req.inputPath
      else if w.cleaner.CleanerRaised? then w.cleaner.reason
      else if w.cleaner.content.None? then "Blender failed to generate cleaned OBJ."
      else "list index out of range"
  {
    if w.inputIsFile && w.cleaner.CleanerReturned? && w.cleaner.content.Some? {
      var lines := Lines(w.cleaner.content.value);
      assert Process(req, w).error == (if WellFormed(lines) then None else Some(MissingGroupName));
    }
  }

  /** The settings `run` reads from the window. */
  datatype Settings = Settings(outputDir: string, createJava: bool, createTxt: bool)

  /** The calls `run` makes, one per row, in list order. */
  function Jobs(entries: seq<Entry>, s: Settings): seq<Request> {
    seq(|entries|, i requires 0 <= i < |entries| => JobFor(entries[i], s.outputDir, s.createJava, s.createTxt))
  }

  /** What each call does, against what the file system answers for that call. */
  ghost function Outcomes(jobs: seq<Request>, worlds: nat -> World): seq<Outcome> {
    seq(|jobs|, i requires 0 <= i < |jobs| => Process(jobs[i], worlds(i)))
  }

  /** What `run` puts in the log: the steps of each call (its logger's messages among
      them) framed by the loop's own messages. */
  datatype Note =
    | Core(step: Event)
    | Processing(file: string)
    | SavedTo(dir: string)
    | FailedOn(file: string, err: ProcessError)
    | Finished(hadError: bool)

  function Lift(t: seq<Event>): seq<Note> {
    seq(|t|, i requires 0 <= i < |t| => Core(t[i]))
  }

  /** What one iteration of `run` does: announce the file, the steps of the call, and
      then where the output went or what was raised. */
  function EntryLog(job: Request, o: Outcome): seq<Note> {
    [Processing(job.inputPath)] + Lift(o.trace)
    + [match o.error
       case None => SavedTo(job.outputDir)
       case Some(err) => FailedOn(job.inputPath, err)]
  }

  /** The steps of the first `k` iterations, given the outcome of each call. */
  function BatchLog(jobs: seq<Request>, outs: seq<Outcome>, k: nat): seq<Note>
    requires k <= |jobs| == |outs|
  {
    if k == 0 then [] else BatchLog(jobs, outs, k - 1) + EntryLog(jobs[k - 1], outs[k - 1])
  }

  /** Some of the first `k` calls raised. */
  predicate AnyFailed(outs: seq<Outcome>, k: nat)
    requires k <= |outs|
  {
    k > 0 && (AnyFailed(outs, k - 1) || outs[k - 1].error.Some?)
  }

  function Summary(hadError: bool): string {
    if hadError then "\n\U{26A0}\U{FE0F} Some conversions failed. Check logs above."
    else "\n\U{2705} All conversions complete."
  }

  /** One iteration of `run`: announce the file, make the call, and log where the
      output went or, when the call raised, the error. */
  method RunEntry(job: Request, w: World) returns (notes: seq<Note>, failed: bool)
    ensures notes == EntryLog(job, Process(job, w))
    ensures failed == Process(job, w).error.Some?
  {
    var steps, error := ProcessObjFile(job, w);
    var closing: Note;
    if error.None? {
      closing := SavedTo(job.outputDir);
    } else {
      closing := FailedOn(job.inputPath, error.value);
    }
    notes := [Processing(job.inputPath)] + Lift(steps) + [closing];
    failed := error.Some?;
  }

  /** The loop of `run` over the calls it makes: one call per row, each inside its
      own `try`, and the summary line after the last. */
  method RunBatch(jobs: seq<Request>, worlds: nat -> World) returns (trace: seq<Note>, hadError: bool)
    ensures var outs := Outcomes(jobs, worlds);
      && hadError == AnyFailed(outs, |outs|)
      && trace == BatchLog(jobs, outs, |jobs|) + [Finished(hadError)]
  {
    trace := [];
    hadError := false;
    for i := 0 to |jobs|
      invariant trace == BatchLog(jobs, Outcomes(jobs, worlds), i)
      invariant hadError == AnyFailed(Outcomes(jobs, worlds), i)
    {
      trace, hadError := RunNext(jobs, worlds, i, trace, hadError);
    }
    trace := trace + [Finished(hadError)];
  }

  /** One turn of the loop of `run`: call `i` is made whatever the calls before it did. */
  method RunNext(jobs: seq<Request>, worlds: nat -> World, i: nat, trace: seq<Note>, hadError: bool)
    returns (trace': seq<Note>, hadError': bool)
    requires i < |jobs|
    requires trace == BatchLog(jobs, Outcomes(jobs, worlds), i)
    requires hadError == AnyFailed(Outcomes(jobs, worlds), i)
    ensures trace' == BatchLog(jobs, Outcomes(jobs, worlds), i + 1)
    ensures hadError' == AnyFailed(Outcomes(jobs, worlds), i + 1)
  {
    ghost var outs := Outcomes(jobs, worlds);
    var notes, failed := RunEntry(jobs[i], worlds(i));
    BatchLogUnfold(jobs, outs, i);
    trace' := trace + notes;
    hadError' := hadError || failed;
  }

  /** `had_error` is set exactly when some call raised. */
  lemma {:induction false} AnyFailedExists(outs: seq<Outcome>, k: nat)
    requires k <= |outs|
    ensures AnyFailed(outs, k) <==> exists i :: 0 <= i < k && outs[i].error.Some?
  {
    if k > 0 {
      AnyFailedExists(outs, k - 1);
    }
  }

  /** The steps of the first `j` calls stay at the front of the batch as it goes on. */
  lemma {:induction false} BatchLogPrefix(jobs: seq<Request>, outs: seq<Outcome>, j: nat, k: nat)
    requires j <= k <= |jobs| == |outs|
    ensures |BatchLog(jobs, outs, j)| <= |BatchLog(jobs, outs, k)|
    ensures forall n :: 0 <= n < |BatchLog(jobs, outs, j)| ==>
      BatchLog(jobs, outs, k)[n] == BatchLog(jobs, outs, j)[n]
    decreases k
  {
    if j < k {
      BatchLogPrefix(jobs, outs, j, k - 1);
    }
  }

  lemma BatchLogUnfold(jobs: seq<Request>, outs: seq<Outcome>, i: nat)
    requires i < |jobs| == |outs|
    ensures BatchLog(jobs, outs, i + 1) == BatchLog(jobs, outs, i) + EntryLog(jobs[i], outs[i])
  {
  }

  /** Every call is made, in list order, whatever happened to the calls before it:
      the steps of call `i` sit in the batch right after those of calls `0..i`, and open
      with the announcement of its file. */
  lemma EveryEntryAttempted(jobs: seq<Request>, outs: seq<Outcome>, i: nat, k: nat)
    requires i < k <= |jobs| == |outs|
    ensures |BatchLog(jobs, outs, i)| + |EntryLog(jobs[i], outs[i])| <= |BatchLog(jobs, outs, k)|
    ensures forall n :: 0 <= n < |EntryLog(jobs[i], outs[i])| ==>
      BatchLog(jobs, outs, k)[|BatchLog(jobs, outs, i)| + n] == EntryLog(jobs[i], outs[i])[n]
    ensures BatchLog(jobs, outs, k)[|BatchLog(jobs, outs, i)|] == Processing(jobs[i].inputPath)
  {
    BatchLogPrefix(jobs, outs, i + 1, k);
    BatchLogUnfold(jobs, outs, i);
  }

  /** Once validation has passed, each call asks for a Java class exactly when Java
      generation is on, and always for a non-empty output name. */
  lemma JobsAfterValidation(entries: seq<Entry>, outputDir: Option<string>, createJava: bool, createTxt: bool, i: nat)
    requires ValidationErrors(entries, outputDir, createJava) == []
    requires i < |entries|
    ensures var job := JobFor(entries[i], outputDir.value, createJava, createTxt);
      && (Truthy(job.javaClass) <==> createJava)
      && (!createJava ==> job.javaClass == None)
      && job.outputName != ""
      && job.generateTxt == createTxt
  {
    ValidationPasses(entries, outputDir, createJava);
    StripSpec(entries[i].javaText);
    StripSpec(entries[i].modelText);
  }

  // ---------------------------------------------------------------------------
  // The window

  /** The rows `refresh_fields` builds: one per file, both fields empty. */
  function BlankEntries(files: seq<string>): (r: seq<Entry>)
    ensures |r| == |files|
    ensures forall i :: 0 <= i < |files| ==> r[i] == Entry(files[i], "", "")
  {
    if files == [] then [] else BlankEntries(files[..|files| - 1]) + [Entry(files[|files| - 1], "", "")]
  }

  /** The conversion window's state. */
  class App {
    var selectedFiles: seq<string>
    var outputDir: Option<string>
    var entries: seq<Entry>
    var createJava: bool
    var createTxt: bool
    /** The lines shown in the log box. */
    var logLines: seq<string>

    /** One row per selected file, in order, and no file selected twice. */
    predicate Valid()
      reads this
    {
      && |entries| == |selectedFiles|
      && (forall i :: 0 <= i < |entries| ==> entries[i].file == selectedFiles[i])
      && NoDuplicates(selectedFiles)
    }

    constructor ()
      ensures Valid()
      ensures selectedFiles == [] && entries == [] && outputDir == None
      ensures createJava && !createTxt && logLines == []
    {
      selectedFiles := [];
      outputDir := None;
      entries := [];
      createJava := true;
      createTxt := false;
      logLines := [];
    }

    /** `toggle_txt_option`: with Java generation on, the group list is switched off. */
    method ToggleTxtOption()
      modifies this
      ensures createJava ==> !createTxt
      ensures !createJava ==> createTxt == old(createTxt)
      ensures createJava == old(createJava) && selectedFiles == old(selectedFiles)
      ensures outputDir == old(outputDir) && entries == old(entries) && logLines == old(logLines)
    {
      if createJava {
        createTxt := false;
      }
    }

    /** Clicking "Generate Java Class" flips the flag and then runs `toggle_txt_option`. */
    method ClickJavaCheckbox()
      modifies this
      ensures createJava == !old(createJava)
      ensures createTxt == (old(createTxt) && !createJava)
      ensures selectedFiles == old(selectedFiles) && outputDir == old(outputDir)
      ensures entries == old(entries) && logLines == old(logLines)
    {
      createJava := !createJava;
      ToggleTxtOption();
    }

    /** Clicking "Generate .txt Groupings" flips its flag and nothing else: the box has no
        command, so both companion files may end up switched on. */
    method ClickTxtCheckbox()
      modifies this
      ensures createTxt == !old(createTxt) && createJava == old(createJava)
      ensures selectedFiles == old(selectedFiles) && outputDir == old(outputDir)
      ensures entries == old(entries) && logLines == old(logLines)
    {
      createTxt := !createTxt;
    }

    /** `browse_files` with the files picked in the dialog: the new ones are appended,
        and the rows are rebuilt, one per selected file with both fields empty. */
    method BrowseFiles(picked: seq<string>)
      requires Valid()
      modifies this
      ensures Valid()
      ensures selectedFiles == AppendNew(old(selectedFiles), picked)
      ensures entries == BlankEntries(selectedFiles)
      ensures createJava == old(createJava) && (createJava ==> !createTxt)
      ensures !createJava ==> createTxt == old(createTxt)
      ensures outputDir == old(outputDir) && logLines == old(logLines)
    {
      AppendNewProperties(selectedFiles, picked);
      selectedFiles := MergeSelection(selectedFiles, picked);
      entries := BlankEntries(selectedFiles);
      ToggleTxtOption();
    }

    /** `choose_output_dir` with the folder the dialog returned; cancelling returns "". */
    method ChooseOutputDir(directory: string)
      modifies this
      ensures directory == "" ==> outputDir == old(outputDir) && logLines == old(logLines)
      ensures directory != "" ==>
        outputDir == Some(directory) && logLines == old(logLines) + ["Output directory set to: " + directory]
      ensures selectedFiles == old(selectedFiles) && entries == old(entries)
      ensures createJava == old(createJava) && createTxt == old(createTxt)
    {
      if directory == "" {
        return;
      }
      outputDir := Some(directory);
      logLines := logLines + ["Output directory set to: " + directory];
    }

    /** Typing into the two fields of row `i`. */
    method EditEntry(i: nat, javaText: string, modelText: string)
      requires Valid() && i < |entries|
      modifies this
      ensures Valid()
      ensures entries == old(entries)[i := Entry(old(entries)[i].file, javaText, modelText)]
      ensures selectedFiles == old(selectedFiles) && outputDir == old(outputDir)
      ensures createJava == old(createJava) && createTxt == old(createTxt) && logLines == old(logLines)
    {
      entries := entries[i := Entry(entries[i].file, javaText, modelText)];
    }

    /** `run_conversion`: with anything missing, the errors are shown, one per line,
        and nothing runs; otherwise every row is converted and the log box receives the
        logger's messages. */
    method RunConversion(worlds: nat -> World) returns (errorBox: Option<string>, trace: seq<Note>)
      requires Valid()
      modifies this
      ensures Valid()
      ensures var errs := old(ValidationErrors(entries, outputDir, createJava));
        && (errs != [] ==> errorBox == Some(JoinLines(ProblemTexts(errs))) && trace == [] && logLines == old(logLines))
        && (errs == [] ==>
              var s := Settings(old(outputDir).value, old(createJava), old(createTxt));
              var jobs := Jobs(entries, s);
              var outs := Outcomes(jobs, worlds);
              && errorBox == None
              && trace == BatchLog(jobs, outs, |jobs|) + [Finished(AnyFailed(outs, |outs|))]
              && logLines == old(logLines) + ["Starting conversion..."] + Messages(trace))
      ensures selectedFiles == old(selectedFiles) && entries == old(entries) && outputDir == old(outputDir)
      ensures createJava == old(createJava) && createTxt == old(createTxt)
    {
      var errors := Validate(entries, outputDir, createJava);
      if errors != [] {
        return Some(JoinLines(ProblemTexts(errors))), [];
      }
      ValidationPasses(entries, outputDir, createJava);
      logLines := logLines + ["Starting conversion..."];
      var hadError;
      var jobs := Jobs(entries, Settings(outputDir.value, createJava, createTxt));
      trace, hadError := RunBatch(jobs, worlds);
      var shown := LogMessages(trace);
      logLines := logLines + shown;
      errorBox := None;
    }
  }

  /** `"\n".join(lines)` */
  function JoinLines(lines: seq<string>): string {
    if lines == [] then "" else if |lines| == 1 then lines[0] else lines[0] + "\n" + JoinLines(lines[1..])
  }

  /** The line a note puts in the log box, if any: the logger's own messages pass
      through, the other steps of a call show nothing. */
  function NoteText(n: Note): Option<string> {
    match n
    case Core(Logged(m)) => Some(m)
    case Core(_) => None
    case Processing(file) => Some("\nProcessing: " + file)
    case SavedTo(dir) => Some("Saved to: " + dir)
    case FailedOn(file, err) => Some("\U{274C} Error processing " + file + ": " + ErrorText(err))
    case Finished(hadError) => Some(Summary(hadError))
  }

  /** The lines a log shows, in order. */
  function Messages(t: seq<Note>): seq<string> {
    if t == [] then []
    else Messages(t[..|t| - 1]) + match NoteText(t[|t| - 1]) case Some(m) => [m] case None => []
  }

  method LogMessages(t: seq<Note>) returns (r: seq<string>)
    ensures r == Messages(t)
  {
    r := [];
    for i := 0 to |t|
      invariant r == Messages(t[..i])
    {
      assert t[..i + 1][..i] == t[..i];
      var line := NoteText(t[i]);
      if line.Some? {
        r := r + [line.value];
      }
    }
    assert t[..|t|] == t;
  }
}
