/**
 * The converter core (logic/converter_core.py): group deduplication over the lines of
 * a Wavefront OBJ file, the two companion-file writers, and the per-file pipeline
 * that runs the external cleaning stage, the deduplication, the move to the output
 * folder, the writers and the sweep of the temp folder.
 */
module ConverterCore {
  import opened Wrappers
  import opened Text
  import opened Sorting
  import opened Paths

  // ---------------------------------------------------------------------------
  // Group declarations

  /** An object (group) declaration: a line starting with `"o "`. */
  predicate IsDecl(line: string) {
    |line| >= 2 && line[0] == 'o' && line[1] == ' '
  }

  /** Stripping a declaration keeps the `o` and drops only trailing whitespace, so it
      is `"o " + n` for the rstripped tail `n`, or just `"o"` when the tail is blank. */
  lemma StripDecl(line: string)
    requires IsDecl(line)
    ensures var n := TrimEnd(line[2..]);
            Strip(line) == if n == [] then "o" else "o " + n
  {
    assert TrimStart(line) == line;
    var tail := line[2..];
    var n := TrimEnd(tail);
    TrimEndSpec(tail);
    assert line[|n| + 2..] == tail[|n|..];
    if n == [] {
      assert line[1..] == [line[1]] + tail;
      TrimEndUnique(line, 1);
      assert line[..1] == "o";
    } else {
      assert line[|n| + 1] == n[|n| - 1];
      TrimEndUnique(line, |n| + 2);
      assert line[..|n| + 2] == "o " + n;
    }
  }

  /** Splitting `"o " + n` at its first space separates the `o` from `n`. */
  lemma SplitDecl(n: string)
    ensures SplitOnce("o " + n, ' ') == ["o", n]
    ensures SplitOnce("o", ' ') == ["o"]
  {
    var s := "o " + n;
    assert FindChar(s, ' ') == Some(1) by {
      assert s[0] == 'o' && s[1] == ' ' && s[..1] == "o";
    }
    assert s[..1] == "o" && s[2..] == n;
  }

  /** The group name a declaration carries: its text after `"o "` without trailing
      whitespace, or None when that is empty. */
  function DeclName(line: string): Option<string>
    requires IsDecl(line)
  {
    var n := TrimEnd(line[2..]);
    if n == [] then None else Some(n)
  }

  /** The source's `line.strip().split(" ", 1)` on a declaration has a second part,
      `[1]`, exactly when DeclName finds a name, and that part is the name; otherwise
      it has one part and indexing it raises IndexError. */
  lemma StripSplitDecl(line: string)
    requires IsDecl(line)
    ensures SplitOnce(Strip(line), ' ') ==
              match DeclName(line) case None => ["o"] case Some(n) => ["o", n]
  {
    StripDecl(line);
    SplitDecl(TrimEnd(line[2..]));
  }

  /** The declaration lines that raise are exactly `o` followed by whitespace only. */
  lemma DeclNameMissing(line: string)
    requires IsDecl(line)
    ensures DeclName(line).None? <==> AllSpace(line[1..])
  {
    var tail := line[2..];
    var n := TrimEnd(tail);
    TrimEndSpec(tail);
    assert line[1..] == [line[1]] + tail;
    if n != [] {
      assert tail[|n| - 1] == n[|n| - 1];
      assert line[1..][|n|] == tail[|n| - 1];
    }
  }

  /** The group name a line declares, if it is a declaration that has one. */
  function DeclNameOf(line: string): Option<string> {
    if IsDecl(line) then DeclName(line) else None
  }

  /** Every declaration among the first `k` lines has a name, so the source's loop
      gets past them without raising. */
  predicate WellFormedUpTo(lines: seq<string>, k: nat)
    requires k <= |lines|
  {
    k == 0 || (WellFormedUpTo(lines, k - 1) && (IsDecl(lines[k - 1]) ==> DeclName(lines[k - 1]).Some?))
  }

  predicate WellFormed(lines: seq<string>) {
    WellFormedUpTo(lines, |lines|)
  }

  /** Well-formedness of a prefix, line by line. */
  lemma {:induction false} WellFormedUpToAll(lines: seq<string>, k: nat)
    requires k <= |lines|
    ensures WellFormedUpTo(lines, k) <==>
              forall i :: 0 <= i < k && IsDecl(lines[i]) ==> DeclName(lines[i]).Some?
  {
    if k > 0 {
      WellFormedUpToAll(lines, k - 1);
    }
  }

  /** The raw group names declared in the first `k` lines, in file order, repeats
      included. */
  function RawNames(lines: seq<string>, k: nat): seq<string>
    requires k <= |lines|
  {
    if k == 0 then []
    else RawNames(lines, k - 1) + match DeclNameOf(lines[k - 1]) case Some(n) => [n] case None => []
  }

  /** The raw names are exactly the names some line declares. */
  lemma {:induction false} RawNamesMembers(lines: seq<string>, k: nat, n: string)
    requires k <= |lines|
    ensures n in RawNames(lines, k) <==> exists j :: 0 <= j < k && DeclNameOf(lines[j]) == Some(n)
  {
    if k > 0 {
      RawNamesMembers(lines, k - 1, n);
    }
  }

  /** How many times the raw name `n` is declared in the first `k` lines. */
  function Occurrences(lines: seq<string>, k: nat, n: string): nat
    requires k <= |lines|
  {
    multiset(RawNames(lines, k))[n]
  }

  /** `name` on its first occurrence, `name_k` on the k-th repeat. */
  function EmittedName(name: string, k: nat): string {
    if k > 0 then name + "_" + NatToString(k) else name
  }

  function DeclLine(name: string): string {
    "o " + name + "\n"
  }

  /** Line `j` of the rewritten file: a declaration of `n` preceded by `k` declarations
      of `n` becomes `o EmittedName(n, k)`, any other line is copied. */
  function Rewrite(lines: seq<string>, j: nat): string
    requires j < |lines|
  {
    match DeclNameOf(lines[j])
    case Some(n) => DeclLine(EmittedName(n, Occurrences(lines, j, n)))
    case None => lines[j]
  }

  /** The first `k` lines of the rewritten file. */
  function RewrittenPrefix(lines: seq<string>, k: nat): seq<string>
    requires k <= |lines|
  {
    if k == 0 then [] else RewrittenPrefix(lines, k - 1) + [Rewrite(lines, k - 1)]
  }

  function RewrittenLines(lines: seq<string>): seq<string> {
    RewrittenPrefix(lines, |lines|)
  }

  /** The rewritten file has one line per input line, and line `j` is `Rewrite(lines, j)`. */
  lemma {:induction false} RewrittenAt(lines: seq<string>, k: nat, j: nat)
    requires j < k <= |lines|
    ensures |RewrittenPrefix(lines, k)| == k
    ensures RewrittenPrefix(lines, k)[j] == Rewrite(lines, j)
  {
    if j < k - 1 {
      RewrittenAt(lines, k - 1, j);
    } else {
      if k > 1 { RewrittenAt(lines, k - 1, 0); }
    }
  }

  /** One renaming-log entry, `f"{name} → {new}"`. */
  function LogEntry(name: string, renamed: string): string {
    name + " \U{2192} " + renamed
  }

  /** The log entry line `j` contributes: `n → n_k` when it is the k-th repeat of `n`,
      nothing for a first occurrence or a line that declares no name. */
  function RepeatEntry(lines: seq<string>, j: nat): Option<string>
    requires j < |lines|
  {
    match DeclNameOf(lines[j])
    case Some(n) =>
      var c := Occurrences(lines, j, n);
      if c > 0 then Some(LogEntry(n, EmittedName(n, c))) else None
    case None => None
  }

  /** The contributions of the first `k` lines, one per line. */
  function RepeatEntries(lines: seq<string>, k: nat): (es: seq<Option<string>>)
    requires k <= |lines|
  {
    seq(k, j requires 0 <= j < k && k <= |lines| => RepeatEntry(lines, j))
  }

  function OptionList(o: Option<string>): seq<string> {
    match o
    case Some(x) => [x]
    case None => []
  }

  /** The values present in a list of options, in order. */
  function Present(es: seq<Option<string>>): seq<string> {
    if es == [] then [] else Present(es[..|es| - 1]) + OptionList(es[|es| - 1])
  }

  /** The renaming log of the first `k` lines: one entry per repeated declaration, in
      file order. */
  function RenameLog(lines: seq<string>, k: nat): seq<string>
    requires k <= |lines|
  {
    Present(RepeatEntries(lines, k))
  }

  /** Reading one more line appends that line's entry, if any, to the log. */
  lemma RenameLogUnfold(lines: seq<string>, k: nat)
    requires 0 < k <= |lines|
    ensures RenameLog(lines, k) == RenameLog(lines, k - 1) + OptionList(RepeatEntry(lines, k - 1))
  {
    var es := RepeatEntries(lines, k);
    assert es[..k - 1] == RepeatEntries(lines, k - 1);
  }

  /** The source's `group_counts` dictionary after counting `names`. */
  function Tally(names: seq<string>): map<string, nat> {
    if names == [] then map[]
    else
      var m := Tally(names[..|names| - 1]);
      var n := names[|names| - 1];
      m[n := (if n in m then m[n] else 0) + 1]
  }

  lemma TallyStep(names: seq<string>, n: string)
    ensures var m := Tally(names);
            Tally(names + [n]) == m[n := (if n in m then m[n] else 0) + 1]
  {
    assert (names + [n])[..|names|] == names;
  }

  /** The counter holds exactly the names seen, each with its number of occurrences. */
  lemma {:induction false} TallyCounts(names: seq<string>, n: string)
    ensures n in Tally(names) <==> n in names
    ensures n in Tally(names) ==> Tally(names)[n] == multiset(names)[n]
  {
    if names != [] {
      var init := names[..|names| - 1];
      TallyCounts(init, n);
      assert names == init + [names[|names| - 1]];
    }
  }

  /** The counter's keys are the distinct names counted. */
  lemma TallyKeys(names: seq<string>)
    ensures Tally(names).Keys == NameSet(names)
  {
    forall n ensures n in Tally(names).Keys <==> n in names {
      TallyCounts(names, n);
    }
  }

  /** `line.strip().split(" ", 1)` on a declaration line. */
  method StripSplit(line: string) returns (parts: seq<string>)
    requires IsDecl(line)
    ensures parts == match DeclName(line) case None => ["o"] case Some(n) => ["o", n]
  {
    parts := SplitOnce(Strip(line), ' ');
    StripSplitDecl(line);
  }

  // ---------------------------------------------------------------------------
  // deduplicate_obj

  /** The distinct names of a sequence. */
  function NameSet(names: seq<string>): set<string> {
    set n | n in names
  }

  datatype Deduplicated = Deduplicated(lines: seq<string>, names: seq<string>, log: seq<string>)

  /** The IndexError raised for a declaration without a name, at that line's index. */
  datatype MissingName = MissingName(line: nat)

  /** `deduplicate_obj` on the lines read from the file: the rewritten lines, the
      sorted raw group names (the keys of the counter) and the renaming log. */
  method Deduplicate(lines: seq<string>) returns (r: Result<Deduplicated, MissingName>)
    ensures r.Failure? <==> !WellFormed(lines)
    ensures r.Failure? ==>
      var i := r.error.line;
      i < |lines| && IsDecl(lines[i]) && DeclName(lines[i]).None? && WellFormedUpTo(lines, i)
    ensures r.Success? ==>
      && r.value.lines == RewrittenLines(lines)
      && r.value.names == Sorted(NameSet(RawNames(lines, |lines|)))
      && r.value.log == RenameLog(lines, |lines|)
  {
    var pass := ReadLines(lines);
    if pass.Failure? {
      return Failure(pass.error);
    }
    var st := pass.value;
    TallyKeys(RawNames(lines, |lines|));
    var names := SortedKeys(st.counts.Keys);
    return Success(Deduplicated(st.lines, names, st.log));
  }

  /** The loop of `deduplicate_obj` over the lines: it stops at the first declaration
      without a name, and otherwise ends in the state after the last line. */
  method ReadLines(lines: seq<string>) returns (r: Result<Pass, MissingName>)
    ensures r.Failure? <==> !WellFormed(lines)
    ensures r.Failure? ==>
      var i := r.error.line;
      i < |lines| && IsDecl(lines[i]) && DeclName(lines[i]).None? && WellFormedUpTo(lines, i)
    ensures r.Success? ==> r.value == PassAfter(lines, |lines|)
  {
    var st := Pass(map[], [], []);
    for i := 0 to |lines|
      invariant WellFormedUpTo(lines, i)
      invariant st == PassAfter(lines, i)
    {
      var next := DedupLine(lines, i, st);
      if next.Failure? {
        WellFormedMonotone(lines, i + 1, |lines|);
        return Failure(next.error);
      }
      st := next.value;
    }
    return Success(st);
  }

  /** The state the source's loop carries from line to line: the counter, the lines
      to write back and the renaming log. */
  datatype Pass = Pass(counts: map<string, nat>, lines: seq<string>, log: seq<string>)

  /** The loop state once the first `k` lines are read. */
  function PassAfter(lines: seq<string>, k: nat): Pass
    requires k <= |lines|
  {
    Pass(Tally(RawNames(lines, k)), RewrittenPrefix(lines, k), RenameLog(lines, k))
  }

  /** One turn of the loop: line `i` read in the state the lines before it left. A
      declaration without a name raises; any other line moves the state on by one. */
  method DedupLine(lines: seq<string>, i: nat, st: Pass) returns (r: Result<Pass, MissingName>)
    requires i < |lines| && st == PassAfter(lines, i)
    ensures r.Failure? <==> IsDecl(lines[i]) && DeclName(lines[i]).None?
    ensures r.Failure? ==> r.error == MissingName(i)
    ensures r.Success? ==> r.value == PassAfter(lines, i + 1)
  {
    var line := lines[i];
    if IsDecl(line) {
      var parts := StripSplit(line);
      if |parts| < 2 {
        return Failure(MissingName(i));
      }
      var name := parts[1];
      DeclStep(lines, i, RawNames(lines, i), name);
      var count := if name in st.counts then st.counts[name] else 0;
      var newGroup := if count > 0 then name + "_" + NatToString(count) else name;
      var log := st.log;
      if count > 0 {
        log := log + [LogEntry(name, newGroup)];
      }
      return Success(Pass(st.counts[name := count + 1], st.lines + [DeclLine(newGroup)], log));
    } else {
      OtherStep(lines, i);
      return Success(Pass(st.counts, st.lines + [line], st.log));
    }
  }

  /** One more line that declares `name`: the counter for the names seen so far holds
      the number of earlier declarations of `name`, the raw names gain `name`, the
      counter counts it once more, and the rewritten line and the log entry carry that
      number. */
  lemma DeclStep(lines: seq<string>, i: nat, raw: seq<string>, name: string)
    requires i < |lines| && DeclNameOf(lines[i]) == Some(name) && raw == RawNames(lines, i)
    ensures var m := Tally(raw);
      var c := if name in m then m[name] else 0;
      && c == Occurrences(lines, i, name)
      && WellFormedUpTo(lines, i + 1) == WellFormedUpTo(lines, i)
      && RawNames(lines, i + 1) == raw + [name]
      && Tally(raw + [name]) == m[name := c + 1]
      && RewrittenPrefix(lines, i + 1) == RewrittenPrefix(lines, i) + [DeclLine(EmittedName(name, c))]
      && RenameLog(lines, i + 1) == RenameLog(lines, i) + (if c > 0 then [LogEntry(name, EmittedName(name, c))] else [])
  {
    TallyCounts(raw, name);
    TallyStep(raw, name);
    RenameLogUnfold(lines, i + 1);
  }

  /** One more line that is not a declaration is copied and changes nothing else. */
  lemma OtherStep(lines: seq<string>, i: nat)
    requires i < |lines| && !IsDecl(lines[i])
    ensures WellFormedUpTo(lines, i + 1) == WellFormedUpTo(lines, i)
    ensures RawNames(lines, i + 1) == RawNames(lines, i)
    ensures RewrittenPrefix(lines, i + 1) == RewrittenPrefix(lines, i) + [lines[i]]
    ensures RenameLog(lines, i + 1) == RenameLog(lines, i)
  {
    RenameLogUnfold(lines, i + 1);
  }

  /** A prefix of a well-formed prefix is well-formed. */
  lemma {:induction false} WellFormedMonotone(lines: seq<string>, j: nat, k: nat)
    requires j <= k <= |lines|
    ensures WellFormedUpTo(lines, k) ==> WellFormedUpTo(lines, j)
    decreases k - j
  {
    if j < k {
      WellFormedMonotone(lines, j, k - 1);
    }
  }

  // ---------------------------------------------------------------------------
  // Properties of the deduplication

  /** One more line adds one occurrence of `n` exactly when it declares `n`. */
  lemma OccurrencesStep(lines: seq<string>, k: nat, n: string)
    requires 0 < k <= |lines|
    ensures Occurrences(lines, k, n) ==
              Occurrences(lines, k - 1, n) + if DeclNameOf(lines[k - 1]) == Some(n) then 1 else 0
  {
    var tail := match DeclNameOf(lines[k - 1]) case Some(m) => [m] case None => [];
    assert multiset(RawNames(lines, k)) == multiset(RawNames(lines, k - 1)) + multiset(tail);
  }

  /** The indices of the lines before `k` that declare `n`. */
  function DeclIndices(lines: seq<string>, k: nat, n: string): set<nat>
    requires k <= |lines|
  {
    set i: nat | i < k && DeclNameOf(lines[i]) == Some(n)
  }

  lemma DeclIndicesStep(lines: seq<string>, k: nat, n: string)
    requires 0 < k <= |lines|
    ensures DeclIndices(lines, k, n) ==
              DeclIndices(lines, k - 1, n) + if DeclNameOf(lines[k - 1]) == Some(n) then {k - 1} else {}
  {
  }

  /** The occurrence count is the number of earlier lines declaring the same name. */
  lemma {:induction false} OccurrencesCount(lines: seq<string>, k: nat, n: string)
    requires k <= |lines|
    ensures Occurrences(lines, k, n) == |DeclIndices(lines, k, n)|
  {
    assert DeclIndices(lines, 0, n) == {};
    for j := 0 to k
      invariant Occurrences(lines, j, n) == |DeclIndices(lines, j, n)|
    {
      OccurrencesCountStep(lines, j + 1, n);
    }
  }

  lemma OccurrencesCountStep(lines: seq<string>, k: nat, n: string)
    requires 0 < k <= |lines|
    requires Occurrences(lines, k - 1, n) == |DeclIndices(lines, k - 1, n)|
    ensures Occurrences(lines, k, n) == |DeclIndices(lines, k, n)|
  {
    OccurrencesStep(lines, k, n);
    DeclIndicesStep(lines, k, n);
    if DeclNameOf(lines[k - 1]) == Some(n) {
      var before := DeclIndices(lines, k - 1, n);
      assert k - 1 !in before;
      assert |before + {k - 1}| == |before| + 1;
    }
  }

  /** The returned list is ascending without repeats and holds exactly the raw names
      some line declares, none of the suffixed ones. */
  lemma ReturnedNames(lines: seq<string>, n: string)
    ensures StrictlyAscending(Sorted(NameSet(RawNames(lines, |lines|))))
    ensures n in Sorted(NameSet(RawNames(lines, |lines|))) <==>
              exists j :: 0 <= j < |lines| && DeclNameOf(lines[j]) == Some(n)
  {
    RawNamesMembers(lines, |lines|, n);
    SortedSpec(NameSet(RawNames(lines, |lines|)));
  }

  /** A name's count never drops as the prefix grows, and a declaration of it adds one. */
  lemma {:induction false} OccurrencesGrow(lines: seq<string>, a: nat, b: nat, n: string)
    requires a < b <= |lines| && DeclNameOf(lines[a]) == Some(n)
    ensures Occurrences(lines, a, n) < Occurrences(lines, b, n)
    decreases b
  {
    OccurrencesStep(lines, b, n);
    if a + 1 < b {
      OccurrencesGrow(lines, a, b - 1, n);
    }
  }

  /** Distinct suffix counts give distinct emitted names. */
  lemma EmittedNameInjective(n: string, a: nat, b: nat)
    requires EmittedName(n, a) == EmittedName(n, b)
    ensures a == b
  {
    if a > 0 && b > 0 {
      var sa, sb := NatToString(a), NatToString(b);
      assert (n + "_" + sa)[|n| + 1..] == sa;
      assert (n + "_" + sb)[|n| + 1..] == sb;
      NatToStringInjective(a, b);
    }
  }

  /** The rewritten file has as many lines as the input, in the same order: lines that
      are not declarations are copied, and the declaration of `n` at line `j` becomes
      `o n` or `o n_k`, where `k` counts the declarations of `n` above it. */
  lemma RewrittenLinesAt(lines: seq<string>, j: nat)
    requires j < |lines|
    ensures |RewrittenLines(lines)| == |lines|
    ensures !IsDecl(lines[j]) ==> RewrittenLines(lines)[j] == lines[j]
    ensures IsDecl(lines[j]) && DeclName(lines[j]).Some? ==>
      var n := DeclName(lines[j]).value;
      var k := |DeclIndices(lines, j, n)|;
      RewrittenLines(lines)[j] == if k == 0 then "o " + n + "\n" else "o " + n + "_" + NatToString(k) + "\n"
  {
    RewrittenAt(lines, |lines|, j);
    if IsDecl(lines[j]) && DeclName(lines[j]).Some? {
      OccurrencesCount(lines, j, DeclName(lines[j]).value);
    }
  }

  /** Two declarations of the same raw name are rewritten to different lines. */
  lemma EmittedDistinctPerName(lines: seq<string>, j1: nat, j2: nat, n: string)
    requires j1 < j2 < |lines|
    requires DeclNameOf(lines[j1]) == Some(n) && DeclNameOf(lines[j2]) == Some(n)
    ensures |RewrittenLines(lines)| == |lines|
    ensures RewrittenLines(lines)[j1] != RewrittenLines(lines)[j2]
  {
    RewrittenAt(lines, |lines|, j1);
    RewrittenAt(lines, |lines|, j2);
    OccurrencesGrow(lines, j1, j2, n);
    var a, b := Occurrences(lines, j1, n), Occurrences(lines, j2, n);
    if DeclLine(EmittedName(n, a)) == DeclLine(EmittedName(n, b)) {
      assert DeclLine(EmittedName(n, a))[2..|DeclLine(EmittedName(n, a))| - 1] == EmittedName(n, a);
      assert DeclLine(EmittedName(n, b))[2..|DeclLine(EmittedName(n, b))| - 1] == EmittedName(n, b);
      EmittedNameInjective(n, a, b);
    }
  }

  /** A declaration line written by the rewriter declares the name it was written with. */
  lemma DeclNameOfLiteral(n: string)
    requires n != [] && !IsSpace(n[|n| - 1])
    ensures DeclNameOf(DeclLine(n)) == Some(n)
  {
    var t := DeclLine(n)[2..];
    assert t == n + "\n" && t[|n|..] == "\n" && t[..|n|] == n;
    TrimEndUnique(t, |n|);
  }

  /** Emitted names are not distinct across raw names: a file declaring `n, n, n_1`
      declares `n, n_1, n_1` after the rewrite. */
  lemma CrossNameCollision(n: string)
    requires n != [] && !IsSpace(n[|n| - 1])
    ensures var lines := [DeclLine(n), DeclLine(n), DeclLine(n + "_1")];
            && |RewrittenLines(lines)| == 3
            && RewrittenLines(lines)[1] == RewrittenLines(lines)[2] == DeclLine(n + "_1")
  {
    CollisionLines([DeclLine(n), DeclLine(n), DeclLine(n + "_1")], n);
  }

  /** CrossNameCollision for a list equal to that file, kept apart from the literal. */
  lemma CollisionLines(lines: seq<string>, n: string)
    requires n != [] && !IsSpace(n[|n| - 1])
    requires lines == [DeclLine(n), DeclLine(n), DeclLine(n + "_1")]
    ensures |RewrittenLines(lines)| == 3
    ensures RewrittenLines(lines)[1] == RewrittenLines(lines)[2] == DeclLine(n + "_1")
  {
    var n1 := n + "_1";
    DeclNameOfLiteral(n);
    DeclNameOfLiteral(n1);
    assert n != n1 by { assert |n| != |n1|; }
    OccurrencesStep(lines, 1, n);
    OccurrencesStep(lines, 2, n1);
    OccurrencesStep(lines, 1, n1);
    assert NatToString(1) == "1";
    assert Rewrite(lines, 1) == DeclLine(n1);
    assert Rewrite(lines, 2) == DeclLine(n1);
    RewrittenAt(lines, 3, 1);
    RewrittenAt(lines, 3, 2);
  }

  lemma NameSetAppend(names: seq<string>, n: string)
    ensures NameSet(names + [n]) == NameSet(names) + {n}
    ensures |NameSet(names + [n])| == |NameSet(names)| + if n in names then 0 else 1
  {
    assert NameSet(names + [n]) == NameSet(names) + {n};
  }

  /** The log has one entry per repeated declaration: its length is the number of
      declarations minus the number of distinct raw names. */
  lemma {:induction false} RenameLogLength(lines: seq<string>, k: nat)
    requires k <= |lines|
    ensures |NameSet(RawNames(lines, k))| <= |RawNames(lines, k)|
    ensures |RenameLog(lines, k)| == |RawNames(lines, k)| - |NameSet(RawNames(lines, k))|
  {
    assert |NameSet(RawNames(lines, 0))| == 0 by { assert NameSet(RawNames(lines, 0)) == {}; }
    for j := 0 to k
      invariant |NameSet(RawNames(lines, j))| <= |RawNames(lines, j)|
      invariant |RenameLog(lines, j)| == |RawNames(lines, j)| - |NameSet(RawNames(lines, j))|
    {
      RenameLogStep(lines, j + 1);
    }
  }

  /** Line `k - 1` adds one raw name, and with it either one distinct name or one log
      entry, or it adds nothing at all; so the count carries over from `k - 1` to `k`. */
  lemma RenameLogStep(lines: seq<string>, k: nat)
    requires 0 < k <= |lines|
    requires |NameSet(RawNames(lines, k - 1))| <= |RawNames(lines, k - 1)|
    requires |RenameLog(lines, k - 1)| == |RawNames(lines, k - 1)| - |NameSet(RawNames(lines, k - 1))|
    ensures |NameSet(RawNames(lines, k))| <= |RawNames(lines, k)|
    ensures |RenameLog(lines, k)| == |RawNames(lines, k)| - |NameSet(RawNames(lines, k))|
  {
    var raw := RawNames(lines, k - 1);
    var log := RenameLog(lines, k - 1);
    RenameLogUnfold(lines, k);
    match DeclNameOf(lines[k - 1])
    case None =>
      assert RawNames(lines, k) == raw;
      assert RenameLog(lines, k) == log;
    case Some(n) =>
      var c := Occurrences(lines, k - 1, n);
      assert RawNames(lines, k) == raw + [n];
      NameSetAppend(raw, n);
      assert n in raw <==> c > 0 by {
        assert n in raw <==> n in multiset(raw);
      }
      if c > 0 {
        assert RenameLog(lines, k) == log + [LogEntry(n, EmittedName(n, c))];
      } else {
        assert RenameLog(lines, k) == log;
      }
  }

  /** Every repeated declaration leaves its entry in the log, at the position right
      after the entries of the lines above it, so the entries come in file order. */
  lemma RenameLogAt(lines: seq<string>, j: nat, k: nat)
    requires j < k <= |lines| && RepeatEntry(lines, j).Some?
    ensures |RenameLog(lines, j)| < |RenameLog(lines, k)|
    ensures RenameLog(lines, k)[|RenameLog(lines, j)|] == RepeatEntry(lines, j).value
  {
    var es := RepeatEntries(lines, k);
    assert es[..j] == RepeatEntries(lines, j);
    PresentAt(es, j);
  }

  /** A present value sits right after the values present before it. */
  lemma {:induction false} PresentAt(es: seq<Option<string>>, j: nat)
    requires j < |es| && es[j].Some?
    ensures |Present(es[..j])| < |Present(es)|
    ensures Present(es)[|Present(es[..j])|] == es[j].value
    decreases |es|
  {
    var init := es[..|es| - 1];
    if j == |es| - 1 {
      assert es[..j] == init;
    } else {
      PresentAt(init, j);
      assert init[..j] == es[..j];
    }
  }

  /** The log holds nothing but the entries of repeated declarations. */
  lemma RenameLogMembers(lines: seq<string>, k: nat, e: string)
    requires k <= |lines|
    ensures e in RenameLog(lines, k) <==> exists j :: 0 <= j < k && RepeatEntry(lines, j) == Some(e)
  {
    var es := RepeatEntries(lines, k);
    PresentMembers(es, e);
    assert forall j :: 0 <= j < k ==> es[j] == RepeatEntry(lines, j);
  }

  /** The values present are those of the options that hold one. */
  lemma {:induction false} PresentMembers(es: seq<Option<string>>, x: string)
    ensures x in Present(es) <==> exists j :: 0 <= j < |es| && es[j] == Some(x)
    decreases |es|
  {
    if es != [] {
      var init := es[..|es| - 1];
      PresentMembers(init, x);
      assert forall j :: 0 <= j < |init| ==> init[j] == es[j];
    }
  }

  /** A group name read from a line has no line break in it. */
  lemma DeclNameNoNewline(line: string)
    requires IsLine(line) && IsDecl(line) && DeclName(line).Some?
    ensures '\n' !in DeclName(line).value
  {
    var n := DeclName(line).value;
    var t := line[2..];
    TrimEndSpec(t);
    assert n == t[..|n|];
    if |n| == |t| {
      assert t[|t| - 1] == line[|line| - 1];
      assert n[..|n| - 1] == line[..|line| - 1][2..];
    } else {
      assert n == line[..|line| - 1][2..2 + |n|];
    }
  }

  /** Every name in the rewritten file is free of line breaks, so each rewritten line
      is one line ending in a line break, or a copied input line. */
  lemma RewrittenLineShape(lines: seq<string>, j: nat)
    requires j < |lines| && IsLine(lines[j])
    ensures IsLine(Rewrite(lines, j))
    ensures EndsInNewline(lines[j]) || DeclNameOf(lines[j]).Some? ==> EndsInNewline(Rewrite(lines, j))
  {
    match DeclNameOf(lines[j])
    case None =>
    case Some(n) =>
      DeclNameNoNewline(lines[j]);
      var e := EmittedName(n, Occurrences(lines, j, n));
      assert '\n' !in e by {
        if Occurrences(lines, j, n) > 0 {
          var d := NatToString(Occurrences(lines, j, n));
          NatToStringDigits(Occurrences(lines, j, n));
          assert '\n' !in d;
        }
      }
      assert DeclLine(e)[..|DeclLine(e)| - 1] == "o " + e;
  }

  /** Reading the rewritten OBJ file back gives the rewritten lines: the output has
      exactly as many lines as the input. */
  lemma RewrittenFileRoundTrip(text: string)
    requires WellFormed(Lines(text))
    ensures Lines(Concat(RewrittenLines(Lines(text)))) == RewrittenLines(Lines(text))
    ensures |Lines(Concat(RewrittenLines(Lines(text))))| == |Lines(text)|
  {
    var lines := Lines(text);
    LinesShape(text);
    var out := RewrittenLines(lines);
    if lines != [] { RewrittenAt(lines, |lines|, 0); }
    forall j | 0 <= j < |out|
      ensures IsLine(out[j])
      ensures j < |out| - 1 ==> EndsInNewline(out[j])
    {
      RewrittenAt(lines, |lines|, j);
      RewrittenLineShape(lines, j);
    }
    LinesConcat(out);
    if lines != [] { RewrittenAt(lines, |lines|, 0); }
  }

  // ---------------------------------------------------------------------------
  // write_java_class

  /** The constant identifier for a group name: `name.upper()` with `-` and `.`
      replaced by `_`. */
  function ConstName(name: string): (r: string)
    ensures |r| == |name|
  {
    ReplaceChar(ReplaceChar(Upper(name), '-', '_'), '.', '_')
  }

  /** The identifier is made character by character: `-` and `.` become `_`, ASCII
      letters are upper-cased, and everything else is kept. */
  lemma ConstNameAt(name: string)
    ensures forall i :: 0 <= i < |name| ==>
      ConstName(name)[i] == if name[i] == '-' || name[i] == '.' then '_' else UpperChar(name[i])
  {
    UpperAt(name);
    ReplaceCharAt(Upper(name), '-', '_');
    ReplaceCharAt(ReplaceChar(Upper(name), '-', '_'), '.', '_');
  }

  /** An identifier holds no `-`, no `.` and no lower-case ASCII letter, and a line
      break only where the name has one. */
  lemma ConstNameChars(name: string, i: nat)
    requires i < |name|
    ensures ConstName(name)[i] !in "-." && !('a' <= ConstName(name)[i] <= 'z')
    ensures ConstName(name)[i] == '\n' <==> name[i] == '\n'
  {
    ConstNameAt(name);
  }

  /** Identifiers are not checked for collisions: `a.b`, `a-b` and `a_b` all become `A_B`. */
  lemma ConstNameCollision()
    ensures ConstName("a.b") == ConstName("a-b") == ConstName("a_b") == "A_B"
  {
    assert UpperChar('a') == 'A' && UpperChar('b') == 'B';
  }

  function JavaHeader(className: string): string {
    "public class " + className + " {\n"
  }

  /** `    public static final String IDENT = "name";` */
  function ConstLine(name: string): string {
    "    public static final String " + ConstName(name) + " = \"" + name + "\";\n"
  }

  function ConstLines(names: seq<string>): (r: seq<string>)
    ensures |r| == |names|
    ensures forall i :: 0 <= i < |names| ==> r[i] == ConstLine(names[i])
  {
    if names == [] then [] else ConstLines(names[..|names| - 1]) + [ConstLine(names[|names| - 1])]
  }

  lemma ConstLinesPrefix(names: seq<string>, i: nat)
    requires i < |names|
    ensures ConstLines(names[..i + 1]) == ConstLines(names[..i]) + [ConstLine(names[i])]
  {
    assert names[..i + 1][..i] == names[..i];
  }

  /** The lines of the generated Java class: header, one constant per name in order, `}`. */
  function JavaLines(className: string, names: seq<string>): seq<string> {
    [JavaHeader(className)] + ConstLines(names) + ["}\n"]
  }

  function JavaText(className: string, names: seq<string>): string {
    Concat(JavaLines(className, names))
  }

  /** `write_java_class`: the path of `<className>.java` in the output folder and the
      text written to it. */
  method WriteJavaClass(className: string, names: seq<string>, outputDir: string)
    returns (path: string, text: string)
    ensures path == Join(outputDir, className + ".java")
    ensures text == JavaText(className, names)
  {
    path := Join(outputDir, className + ".java");
    text := BuildJavaText(className, names);
  }

  /** The lines `write_java_class` writes, joined: the header, one constant per name in
      order, and the closing brace. */
  method BuildJavaText(className: string, names: seq<string>) returns (text: string)
    ensures text == JavaText(className, names)
  {
    text := JavaHeader(className);
    ghost var written := [JavaHeader(className)];
    assert Concat(written) == text by { assert Concat(written) == written[0] + Concat([]); }
    for i := 0 to |names|
      invariant written == [JavaHeader(className)] + ConstLines(names[..i])
      invariant text == Concat(written)
    {
      ConcatAppend(written, ConstLine(names[i]));
      ConstLinesPrefix(names, i);
      text := text + ConstLine(names[i]);
      written := written + [ConstLine(names[i])];
    }
    ConcatAppend(written, "}\n");
    assert names[..|names|] == names;
    text := text + "}\n";
  }

  lemma ConstLineShape(name: string)
    requires '\n' !in name
    ensures IsLine(ConstLine(name)) && EndsInNewline(ConstLine(name))
  {
    var l := ConstLine(name);
    assert '\n' !in ConstName(name) by {
      forall i | 0 <= i < |name| ensures ConstName(name)[i] != '\n' {
        ConstNameChars(name, i);
      }
    }
    assert l[..|l| - 1] == "    public static final String " + ConstName(name) + " = \"" + name + "\";";
  }

  /** Read back line by line, the Java file is its header, one constant line per name
      in the given order and the closing brace, so it has two lines more than there
      are names, as long as neither the class name nor a group name holds a line break. */
  lemma JavaTextLines(className: string, names: seq<string>)
    requires '\n' !in className
    requires forall i :: 0 <= i < |names| ==> '\n' !in names[i]
    ensures Lines(JavaText(className, names)) == JavaLines(className, names)
    ensures |Lines(JavaText(className, names))| == |names| + 2
  {
    JavaLinesShape(className, names);
    LinesConcat(JavaLines(className, names));
  }

  /** Every line of the Java class is one line ending in a line break. */
  lemma JavaLinesShape(className: string, names: seq<string>)
    requires '\n' !in className
    requires forall i :: 0 <= i < |names| ==> '\n' !in names[i]
    ensures forall i :: 0 <= i < |JavaLines(className, names)| ==>
      IsLine(JavaLines(className, names)[i]) && EndsInNewline(JavaLines(className, names)[i])
  {
    var ls := JavaLines(className, names);
    var h := JavaHeader(className);
    assert h[..|h| - 1] == "public class " + className + " {";
    var body := ConstLines(names);
    assert ls == [h] + body + ["}\n"];
    forall i | 0 <= i < |ls| ensures IsLine(ls[i]) && EndsInNewline(ls[i]) {
      if i == 0 {
        assert ls[i] == h;
      } else if i == |ls| - 1 {
        assert ls[i] == "}\n";
      } else {
        assert ls[i] == body[i - 1] == ConstLine(names[i - 1]);
        ConstLineShape(names[i - 1]);
      }
    }
  }

  // ---------------------------------------------------------------------------
  // write_txt_list

  /** The lines of the group list: each name followed by a line break. */
  function ListingLines(names: seq<string>): (r: seq<string>)
    ensures |r| == |names|
    ensures forall i :: 0 <= i < |names| ==> r[i] == names[i] + "\n"
  {
    if names == [] then [] else ListingLines(names[..|names| - 1]) + [names[|names| - 1] + "\n"]
  }

  function ListingText(names: seq<string>): string {
    Concat(ListingLines(names))
  }

  /** `write_txt_list`: the path of `<outputName>.txt` in the output folder and the
      text written to it. */
  method WriteTxtList(names: seq<string>, outputDir: string, outputName: string)
    returns (path: string, text: string)
    ensures path == Join(outputDir, outputName + ".txt")
    ensures text == ListingText(names)
  {
    path := Join(outputDir, outputName + ".txt");
    text := "";
    for i := 0 to |names|
      invariant text == ListingText(names[..i])
    {
      assert names[..i + 1][..i] == names[..i];
      ConcatAppend(ListingLines(names[..i]), names[i] + "\n");
      text := text + names[i] + "\n";
    }
    assert names[..|names|] == names;
  }

  /** Read back line by line, the group list has one line per name, holding that name,
      as long as no name holds a line break. */
  lemma ListingTextLines(names: seq<string>)
    requires forall i :: 0 <= i < |names| ==> '\n' !in names[i]
    ensures Lines(ListingText(names)) == ListingLines(names)
    ensures |Lines(ListingText(names))| == |names|
    ensures forall i :: 0 <= i < |names| ==> Lines(ListingText(names))[i][..|names[i]|] == names[i]
  {
    var ls := ListingLines(names);
    forall i | 0 <= i < |ls| ensures IsLine(ls[i]) && EndsInNewline(ls[i]) {
      assert ls[i][..|ls[i]| - 1] == names[i];
    }
    LinesConcat(ls);
  }

  // ---------------------------------------------------------------------------
  // process_obj_file

  /** What `run_blender_cleaner` did: raised with a message, or returned the path of
      the cleaned file together with that file's text (None when nothing is there). */
  datatype CleanerOutcome =
    | CleanerRaised(reason: string)
    | CleanerReturned(path: string, content: Option<string>)

  /** The arguments of `process_obj_file`. */
  datatype Request = Request(
    inputPath: string, outputDir: string, javaClass: Option<string>,
    generateTxt: bool, outputName: string)

  /** What the file system and the cleaner answer during one call: whether the input is
      a file, the cleaner's outcome, the temp folder, the names `os.listdir` gives for
      it, and the removals that raise, with their messages. */
  datatype World = World(
    inputIsFile: bool, cleaner: CleanerOutcome, tempDir: string,
    tempListing: seq<string>, removeErrors: map<string, string>)

  /** One observable step: a logger message or an effect on a file. */
  datatype Event =
    | Logged(msg: string)
    | WroteObj(path: string, text: string)
    | Moved(src: string, dst: string)
    | WroteJava(path: string, text: string)
    | WroteTxt(path: string, text: string)
    | Removed(path: string)

  /** The exception `process_obj_file` raises. */
  datatype ProcessError =
    | InputNotFound(message: string)
    | CleaningFailed(reason: string)
    | CleanedFileMissing(message: string)
    | MissingGroupName

  datatype Outcome = Outcome(trace: seq<Event>, error: Option<ProcessError>)

  const CleaningMsg := "Cleaning model with Blender..."
  const DedupMsg := "Deduplicating group names..."

  /** Python truthiness of the optional class name: present and non-empty. */
  predicate Truthy(s: Option<string>) {
    s.Some? && s.value != ""
  }

  function EntryMessages(log: seq<string>): (r: seq<Event>)
    ensures |r| == |log|
    ensures forall i :: 0 <= i < |log| ==> r[i] == Logged("  " + log[i])
  {
    if log == [] then [] else EntryMessages(log[..|log| - 1]) + [Logged("  " + log[|log| - 1])]
  }

  /** The report after deduplication: the renames or their absence, then the count. */
  function Report(log: seq<string>, names: seq<string>): seq<Event> {
    (if log != []
     then [Logged("Renamed " + NatToString(|log|) + " duplicate group(s).")] + EntryMessages(log)
     else [Logged("No duplicate groups found.")])
    + [Logged("Found " + NatToString(|names|) + " group(s) after processing.")]
  }

  function JavaSteps(req: Request, names: seq<string>): seq<Event> {
    if Truthy(req.javaClass) then
      var path := Join(req.outputDir, req.javaClass.value + ".java");
      [WroteJava(path, JavaText(req.javaClass.value, names)), Logged("Java mapping saved to: " + path)]
    else []
  }

  function TxtSteps(req: Request, names: seq<string>): seq<Event> {
    if req.generateTxt then
      var path := Join(req.outputDir, req.outputName + ".txt");
      [WroteTxt(path, ListingText(names)), Logged("Group list saved to: " + path)]
    else []
  }

  /** One temp-folder entry: removed, or a warning when removing it raises. */
  function SweepStep(tempDir: string, f: string, removeErrors: map<string, string>): Event {
    if f in removeErrors
    then Logged("\U{26A0}\U{FE0F} Failed to clean temp file: " + f + " \U{2192} " + removeErrors[f])
    else Removed(Join(tempDir, f))
  }

  function SweepSteps(tempDir: string, listing: seq<string>, removeErrors: map<string, string>): (r: seq<Event>)
    ensures |r| == |listing|
    ensures forall i :: 0 <= i < |listing| ==> r[i] == SweepStep(tempDir, listing[i], removeErrors)
  {
    if listing == [] then []
    else SweepSteps(tempDir, listing[..|listing| - 1], removeErrors) + [SweepStep(tempDir, listing[|listing| - 1], removeErrors)]
  }

  /** The steps `process_obj_file` takes once the cleaned text has been deduplicated. */
  ghost function SuccessSteps(req: Request, w: World, path: string, lines: seq<string>): seq<Event> {
    var names := Sorted(NameSet(RawNames(lines, |lines|)));
    var finalPath := Join(req.outputDir, req.outputName + ".obj");
    [Logged(CleaningMsg), Logged(DedupMsg), WroteObj(path, Concat(RewrittenLines(lines)))]
    + Report(RenameLog(lines, |lines|), names)
    + [Moved(path, finalPath), Logged("Final OBJ saved to: " + finalPath)]
    + (JavaSteps(req, names) + TxtSteps(req, names))
    + SweepSteps(w.tempDir, w.tempListing, w.removeErrors)
  }

  /** `process_obj_file`: the steps taken, in order, and the exception raised, if any. */
  ghost function Process(req: Request, w: World): Outcome {
    if !w.inputIsFile then Outcome([], Some(InputNotFound("File not found: " + req.inputPath)))
    else match w.cleaner
      case CleanerRaised(reason) => Outcome([Logged(CleaningMsg)], Some(CleaningFailed(reason)))
      case CleanerReturned(_, None) =>
        Outcome([Logged(CleaningMsg)], Some(CleanedFileMissing("Blender failed to generate cleaned OBJ.")))
      case CleanerReturned(path, Some(text)) =>
        var lines := Lines(text);
        if !WellFormed(lines) then Outcome([Logged(CleaningMsg), Logged(DedupMsg)], Some(MissingGroupName))
        else Outcome(SuccessSteps(req, w, path, lines), None)
  }

  /** The temp-folder sweep. */
  method SweepTemp(tempDir: string, listing: seq<string>, removeErrors: map<string, string>)
    returns (steps: seq<Event>)
    ensures steps == SweepSteps(tempDir, listing, removeErrors)
  {
    steps := [];
    for i := 0 to |listing|
      invariant steps == SweepSteps(tempDir, listing[..i], removeErrors)
    {
      assert listing[..i + 1][..i] == listing[..i];
      var step := RemoveTempEntry(tempDir, listing[i], removeErrors);
      steps := steps + [step];
    }
    assert listing[..|listing|] == listing;
  }

  /** One turn of the sweep: the removal, or the warning when it raises. */
  method RemoveTempEntry(tempDir: string, f: string, removeErrors: map<string, string>)
    returns (step: Event)
    ensures step == SweepStep(tempDir, f, removeErrors)
  {
    if f in removeErrors {
      step := Logged("\U{26A0}\U{FE0F} Failed to clean temp file: " + f + " \U{2192} " + removeErrors[f]);
    } else {
      step := Removed(Join(tempDir, f));
    }
  }

  /** The logger calls that report the deduplication. */
  method ReportDedup(log: seq<string>, names: seq<string>) returns (steps: seq<Event>)
    ensures steps == Report(log, names)
  {
    if log != [] {
      steps := [Logged("Renamed " + NatToString(|log|) + " duplicate group(s).")];
      for i := 0 to |log|
        invariant steps == [Logged("Renamed " + NatToString(|log|) + " duplicate group(s).")] + EntryMessages(log[..i])
      {
        assert log[..i + 1][..i] == log[..i];
        steps := steps + [Logged("  " + log[i])];
      }
      assert log[..|log|] == log;
    } else {
      steps := [Logged("No duplicate groups found.")];
    }
    steps := steps + [Logged("Found " + NatToString(|names|) + " group(s) after processing.")];
  }

  /** The optional companion files, Java class first, then the group list. */
  method WriteCompanions(req: Request, names: seq<string>) returns (steps: seq<Event>)
    ensures steps == JavaSteps(req, names) + TxtSteps(req, names)
  {
    steps := [];
    if req.javaClass.Some? && req.javaClass.value != "" {
      var javaPath, javaText := WriteJavaClass(req.javaClass.value, names, req.outputDir);
      steps := steps + [WroteJava(javaPath, javaText), Logged("Java mapping saved to: " + javaPath)];
    }
    if req.generateTxt {
      var txtPath, txtText := WriteTxtList(names, req.outputDir, req.outputName);
      steps := steps + [WroteTxt(txtPath, txtText), Logged("Group list saved to: " + txtPath)];
    }
  }

  /** `process_obj_file` run against the answers in `w`. */
  method ProcessObjFile(req: Request, w: World) returns (trace: seq<Event>, error: Option<ProcessError>)
    ensures Outcome(trace, error) == Process(req, w)
  {
    if !w.inputIsFile {
      return [], Some(InputNotFound("File not found: " + req.inputPath));
    }
    trace := [Logged(CleaningMsg)];
    if w.cleaner.CleanerRaised? {
      return trace, Some(CleaningFailed(w.cleaner.reason));
    }
    var cleanedPath := w.cleaner.path;
    if w.cleaner.content.None? {
      return trace, Some(CleanedFileMissing("Blender failed to generate cleaned OBJ."));
    }
    trace := trace + [Logged(DedupMsg)];
    var lines := Lines(w.cleaner.content.value);
    var d := Deduplicate(lines);
    if d.Failure? {
      return trace, Some(MissingGroupName);
    }
    var names := d.value.names;
    var finalPath := Join(req.outputDir, req.outputName + ".obj");
    var report := ReportDedup(d.value.log, names);
    var companions := WriteCompanions(req, names);
    var swept := SweepTemp(w.tempDir, w.tempListing, w.removeErrors);
    trace := [Logged(CleaningMsg), Logged(DedupMsg), WroteObj(cleanedPath, Concat(d.value.lines))] + report
      + [Moved(cleanedPath, finalPath), Logged("Final OBJ saved to: " + finalPath)]
      + companions + swept;
    error := None;
  }

  // ---------------------------------------------------------------------------
  // Properties of the pipeline

  /** The file effects of a trace, in order, without the logger messages. */
  function Effects(t: seq<Event>): (r: seq<Event>)
    ensures |r| <= |t|
  {
    if t == [] then []
    else Effects(t[..|t| - 1]) + if t[|t| - 1].Logged? then [] else [t[|t| - 1]]
  }

  lemma {:induction false} EffectsAppend(a: seq<Event>, b: seq<Event>)
    ensures Effects(a + b) == Effects(a) + Effects(b)
    decreases |b|
  {
    if b != [] {
      var init := b[..|b| - 1];
      assert (a + b)[..|a + b| - 1] == a + init;
      EffectsAppend(a, init);
    } else {
      assert a + b == a;
    }
  }

  /** The temp files the sweep removes: those whose removal does not raise. */
  function Removals(tempDir: string, listing: seq<string>, removeErrors: map<string, string>): seq<Event> {
    if listing == [] then []
    else
      var f := listing[|listing| - 1];
      Removals(tempDir, listing[..|listing| - 1], removeErrors)
        + if f in removeErrors then [] else [Removed(Join(tempDir, f))]
  }

  lemma {:induction false} SweepEffects(tempDir: string, listing: seq<string>, removeErrors: map<string, string>)
    ensures Effects(SweepSteps(tempDir, listing, removeErrors)) == Removals(tempDir, listing, removeErrors)
    decreases |listing|
  {
    if listing != [] {
      var init := listing[..|listing| - 1];
      SweepEffects(tempDir, init, removeErrors);
      var t := SweepSteps(tempDir, listing, removeErrors);
      assert t[..|t| - 1] == SweepSteps(tempDir, init, removeErrors);
    }
  }

  lemma {:induction false} ReportEffects(log: seq<string>, names: seq<string>)
    ensures Effects(Report(log, names)) == []
  {
    var found := [Logged("Found " + NatToString(|names|) + " group(s) after processing.")];
    if log != [] {
      var head := [Logged("Renamed " + NatToString(|log|) + " duplicate group(s).")];
      EntryEffects(log);
      EffectsAppend(head, EntryMessages(log));
      EffectsAppend(head + EntryMessages(log), found);
    } else {
      EffectsAppend([Logged("No duplicate groups found.")], found);
    }
  }

  lemma {:induction false} EntryEffects(log: seq<string>)
    ensures Effects(EntryMessages(log)) == []
    decreases |log|
  {
    if log != [] {
      EntryEffects(log[..|log| - 1]);
      var t := EntryMessages(log);
      assert t[..|t| - 1] == EntryMessages(log[..|log| - 1]);
    }
  }

  lemma EffectsOne(e: Event)
    ensures Effects([e]) == if e.Logged? then [] else [e]
  {
    assert [e][..0] == [];
  }

  /** A trace of logger messages only touches no file. */
  lemma {:induction false} EffectsOfLogs(t: seq<Event>)
    requires forall i :: 0 <= i < |t| ==> t[i].Logged?
    ensures Effects(t) == []
  {
    if t != [] {
      EffectsOfLogs(t[..|t| - 1]);
    }
  }

  lemma Regroup(x: Event, y: Event, p: seq<Event>, q: seq<Event>, r: seq<Event>)
    ensures [x] + [] + [y] + (p + q) + r == [x, y] + p + q + r
  {
  }

  lemma EffectsPair(x: Event, y: Event)
    ensures Effects([x, y]) == Effects([x]) + Effects([y])
  {
    EffectsAppend([x], [y]);
    assert [x, y] == [x] + [y];
  }

  lemma EffectsFive(a: seq<Event>, b: seq<Event>, c: seq<Event>, d: seq<Event>, e: seq<Event>)
    ensures Effects(a + b + c + d + e) == Effects(a) + Effects(b) + Effects(c) + Effects(d) + Effects(e)
  {
    EffectsAppend(a + b + c + d, e);
    EffectsAppend(a + b + c, d);
    EffectsAppend(a + b, c);
    EffectsAppend(a, b);
  }

  lemma JavaEffects(req: Request, names: seq<string>)
    ensures Effects(JavaSteps(req, names)) ==
      if Truthy(req.javaClass)
      then [WroteJava(Join(req.outputDir, req.javaClass.value + ".java"), JavaText(req.javaClass.value, names))]
      else []
  {
    var j := JavaSteps(req, names);
    if j != [] {
      EffectsPair(j[0], j[1]);
      EffectsOne(j[0]);
      EffectsOne(j[1]);
    }
  }

  lemma TxtEffects(req: Request, names: seq<string>)
    ensures Effects(TxtSteps(req, names)) ==
      if req.generateTxt
      then [WroteTxt(Join(req.outputDir, req.outputName + ".txt"), ListingText(names))]
      else []
  {
    var t := TxtSteps(req, names);
    if t != [] {
      EffectsPair(t[0], t[1]);
      EffectsOne(t[0]);
      EffectsOne(t[1]);
    }
  }

  lemma HeadEffects(obj: Event, moved: Event, finalMsg: string)
    requires !obj.Logged? && !moved.Logged?
    ensures Effects([Logged(CleaningMsg), Logged(DedupMsg), obj]) == [obj]
    ensures Effects([moved, Logged(finalMsg)]) == [moved]
  {
    EffectsOfLogs([Logged(CleaningMsg), Logged(DedupMsg)]);
    EffectsAppend([Logged(CleaningMsg), Logged(DedupMsg)], [obj]);
    EffectsOne(obj);
    assert [Logged(CleaningMsg), Logged(DedupMsg), obj] == [Logged(CleaningMsg), Logged(DedupMsg)] + [obj];
    EffectsPair(moved, Logged(finalMsg));
    EffectsOne(moved);
    EffectsOne(Logged(finalMsg));
  }

  /** The file effects of a run that gets past deduplication. */
  lemma SuccessEffects(req: Request, w: World, path: string, lines: seq<string>)
    ensures var names := Sorted(NameSet(RawNames(lines, |lines|)));
      Effects(SuccessSteps(req, w, path, lines)) ==
        [WroteObj(path, Concat(RewrittenLines(lines))),
         Moved(path, Join(req.outputDir, req.outputName + ".obj"))]
        + (if Truthy(req.javaClass)
           then [WroteJava(Join(req.outputDir, req.javaClass.value + ".java"), JavaText(req.javaClass.value, names))]
           else [])
        + (if req.generateTxt
           then [WroteTxt(Join(req.outputDir, req.outputName + ".txt"), ListingText(names))]
           else [])
        + Removals(w.tempDir, w.tempListing, w.removeErrors)
  {
    var names := Sorted(NameSet(RawNames(lines, |lines|)));
    var finalPath := Join(req.outputDir, req.outputName + ".obj");
    var obj := WroteObj(path, Concat(RewrittenLines(lines)));
    var moved := Moved(path, finalPath);
    var a := [Logged(CleaningMsg), Logged(DedupMsg), obj];
    var b := Report(RenameLog(lines, |lines|), names);
    var c := [moved, Logged("Final OBJ saved to: " + finalPath)];
    var j := JavaSteps(req, names);
    var t := TxtSteps(req, names);
    var sw := SweepSteps(w.tempDir, w.tempListing, w.removeErrors);
    assert SuccessSteps(req, w, path, lines) == a + b + c + (j + t) + sw;
    EffectsFive(a, b, c, j + t, sw);
    EffectsAppend(j, t);
    HeadEffects(obj, moved, "Final OBJ saved to: " + finalPath);
    ReportEffects(RenameLog(lines, |lines|), names);
    var ej, et, er := Effects(j), Effects(t), Effects(sw);
    JavaEffects(req, names);
    TxtEffects(req, names);
    SweepEffects(w.tempDir, w.tempListing, w.removeErrors);
    assert Effects(SuccessSteps(req, w, path, lines)) == [obj] + [] + [moved] + (ej + et) + er;
    Regroup(obj, moved, ej, et, er);
  }

  /** The files `process_obj_file` touches, in order. When it raises it has written,
      moved and removed nothing (the temp folder is not swept). Otherwise it writes the
      deduplicated text over the cleaned file, moves that to `<outputName>.obj` in the
      output folder, writes the Java class only for a non-empty class name, writes the
      group list only when asked to, and then removes the temp files it can. */
  lemma ProcessEffects(req: Request, w: World)
    ensures Process(req, w).error.Some? ==> Effects(Process(req, w).trace) == []
    ensures Process(req, w).error.None? ==>
      && w.inputIsFile && w.cleaner.CleanerReturned? && w.cleaner.content.Some?
      && var path := w.cleaner.path;
         var lines := Lines(w.cleaner.content.value);
         var names := Sorted(NameSet(RawNames(lines, |lines|)));
         Effects(Process(req, w).trace) ==
           [WroteObj(path, Concat(RewrittenLines(lines))),
            Moved(path, Join(req.outputDir, req.outputName + ".obj"))]
           + (if Truthy(req.javaClass)
              then [WroteJava(Join(req.outputDir, req.javaClass.value + ".java"), JavaText(req.javaClass.value, names))]
              else [])
           + (if req.generateTxt
              then [WroteTxt(Join(req.outputDir, req.outputName + ".txt"), ListingText(names))]
              else [])
           + Removals(w.tempDir, w.tempListing, w.removeErrors)
  {
    var o := Process(req, w);
    if o.error.Some? {
      EffectsOfLogs(o.trace);
    } else {
      SuccessEffects(req, w, w.cleaner.path, Lines(w.cleaner.content.value));
    }
  }

  /** A missing input raises before anything else happens: nothing is logged. */
  lemma MissingInputFirst(req: Request, w: World)
    requires !w.inputIsFile
    ensures Process(req, w).trace == []
    ensures Process(req, w).error == Some(InputNotFound("File not found: " + req.inputPath))
  {
  }

  /** `process_obj_file` returns normally exactly when the input is a file, the cleaner
      returns a path that holds a file, and every declaration in it names a group. */
  lemma ProcessSucceeds(req: Request, w: World)
    ensures Process(req, w).error.None? <==>
      w.inputIsFile && w.cleaner.CleanerReturned? && w.cleaner.content.Some?
      && WellFormed(Lines(w.cleaner.content.value))
  {
    if w.inputIsFile && w.cleaner.CleanerReturned? && w.cleaner.content.Some? {
      var lines := Lines(w.cleaner.content.value);
      assert Process(req, w).error == (if WellFormed(lines) then None else Some(MissingGroupName));
    }
  }

  /** No name read from a text's lines holds a line break. */
  lemma {:induction false} RawNamesNoNewline(lines: seq<string>, k: nat, n: string)
    requires k <= |lines|
    requires forall i :: 0 <= i < |lines| ==> IsLine(lines[i])
    requires n in RawNames(lines, k)
    ensures '\n' !in n
  {
    RawNamesMembers(lines, k, n);
    var j :| 0 <= j < k && DeclNameOf(lines[j]) == Some(n);
    DeclNameNoNewline(lines[j]);
  }

  /** Read back, the group list a successful run writes for the cleaned text `text`
      has one line per returned name, and the Java class two more, for a class name
      without line breaks. */
  lemma CompanionsReadBack(text: string, javaClass: string)
    ensures var lines := Lines(text);
            var names := Sorted(NameSet(RawNames(lines, |lines|)));
            && |Lines(ListingText(names))| == |names|
            && ('\n' !in javaClass ==> |Lines(JavaText(javaClass, names))| == |names| + 2)
  {
    var lines := Lines(text);
    var raw := RawNames(lines, |lines|);
    var names := Sorted(NameSet(raw));
    LinesShape(text);
    SortedSpec(NameSet(raw));
    forall i | 0 <= i < |names| ensures '\n' !in names[i] {
      assert names[i] in NameSet(raw);
      RawNamesNoNewline(lines, |lines|, names[i]);
    }
    ListingTextLines(names);
    if '\n' !in javaClass {
      JavaTextLines(javaClass, names);
    }
  }
}
