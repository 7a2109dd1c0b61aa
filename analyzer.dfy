/** The analyzer's path-level aggregation: every file's findings are
    collected (a file whose analysis fails leaves an `{file, error}` entry
    instead), then the summary counters are tallied over the findings that
    carry a severity. Finding the files and analysing one file are inputs. */
module Analyzer {
  import opened Values
  import opened Rules

  /** The formats that have a parser. */
  predicate KnownFormat(format: string) {
    format == "terraform" || format == "cloudformation" || format == "arm"
  }

  /** The counters every analysis starts from. */
  function InitialSummary(): map<string, int> {
    map["files_analyzed" := 0, "total_issues" := 0, "critical" := 0, "high" := 0, "medium" := 0, "low" := 0]
  }

  /** The counters the tally starts from, once the file loop has run. */
  function StartSummary(analyzed: int): map<string, int> {
    InitialSummary()["files_analyzed" := analyzed]
  }

  /** `summary.get(key, 0)`. */
  function Counter(summary: map<string, int>, key: string): int {
    if key in summary then summary[key] else 0
  }

  datatype Analysis = Analysis(timestamp: string, summary: map<string, int>, findings: seq<Finding>)

  /** The entry recorded for a file whose analysis raised `e`; it has no severity. */
  function FailureEntry(file: string, e: string): (f: Finding)
    ensures f.severity.None? && f.file == Some(file) && f.error == Some("Failed to analyze: " + e)
  {
    Finding(Some(file), None, None, None, None, None, None, None, None, None, None, Some("Failed to analyze: " + e))
  }

  /** The per-file loop's state: the findings so far and `files_analyzed`. */
  datatype Progress = Progress(findings: seq<Finding>, analyzed: int)

  function Visit(p: Progress, file: string, outcome: Result<seq<Finding>>): Progress {
    match outcome
    case Ok(fs) => Progress(p.findings + fs, p.analyzed + 1)
    case Err(e) => Progress(p.findings + [FailureEntry(file, e)], p.analyzed)
  }

  /** The per-file loop, from a given state. */
  function Collect(files: seq<string>, analyze: string -> Result<seq<Finding>>, p: Progress): Progress
    decreases |files|
  {
    if files == [] then p else Collect(files[1..], analyze, Visit(p, files[0], analyze(files[0])))
  }

  /** One step of the tally: a finding with a severity bumps `total_issues`
      and then the counter named by its lowercased severity. */
  function Count(summary: map<string, int>, f: Finding): map<string, int> {
    if f.severity.None? then summary
    else
      var bumped := summary["total_issues" := Counter(summary, "total_issues") + 1];
      var key := Lower(f.severity.value);
      bumped[key := Counter(bumped, key) + 1]
  }

  /** The tally loop, from a given summary. */
  function Tally(findings: seq<Finding>, summary: map<string, int>): map<string, int>
    decreases |findings|
  {
    if findings == [] then summary else Tally(findings[1..], Count(summary, findings[0]))
  }

  /** `analyze_path` with the intended `return results`. */
  function AnalyzePathSpec(format: string, files: seq<string>, analyze: string -> Result<seq<Finding>>,
                           timestamp: string): Result<Analysis>
  {
    if !KnownFormat(format) then Err("Unsupported format: " + format)
    else
      var p := Collect(files, analyze, Progress([], 0));
      var summary := StartSummary(p.analyzed);
      Ok(Analysis(timestamp, Tally(p.findings, summary), p.findings))
  }

  /** The file loop: each file's findings, or its failure entry. */
  method CollectFiles(files: seq<string>, analyze: string -> Result<seq<Finding>>)
    returns (findings: seq<Finding>, analyzed: int)
    ensures Progress(findings, analyzed) == Collect(files, analyze, Progress([], 0))
  {
    findings := [];
    analyzed := 0;
    var i := 0;
    assert files[0..] == files;
    while i < |files|
      invariant 0 <= i <= |files|
      invariant Collect(files, analyze, Progress([], 0)) == Collect(files[i..], analyze, Progress(findings, analyzed))
    {
      assert files[i..][1..] == files[i + 1..];
      var outcome := analyze(files[i]);
      if outcome.Ok? {
        findings := findings + outcome.value;
        analyzed := analyzed + 1;
      } else {
        findings := findings + [FailureEntry(files[i], outcome.error)];
      }
      i := i + 1;
    }
    assert files[|files|..] == [];
  }

  /** The tally loop over the findings, from `start`. */
  method TallyFindings(findings: seq<Finding>, start: map<string, int>) returns (summary: map<string, int>)
    ensures summary == Tally(findings, start)
  {
    summary := start;
    var j := 0;
    assert findings[0..] == findings;
    while j < |findings|
      invariant 0 <= j <= |findings|
      invariant Tally(findings, start) == Tally(findings[j..], summary)
    {
      assert findings[j..][1..] == findings[j + 1..];
      var f := findings[j];
      if f.severity.Some? {
        var severity := Lower(f.severity.value);
        summary := summary["total_issues" := Counter(summary, "total_issues") + 1];
        summary := summary[severity := Counter(summary, severity) + 1];
      }
      j := j + 1;
    }
    assert findings[|findings|..] == [];
  }

  /** `analyze_path` as the source runs it: the file loop, then the tally loop. */
  method AnalyzePath(format: string, files: seq<string>, analyze: string -> Result<seq<Finding>>,
                     timestamp: string) returns (r: Result<Analysis>)
    ensures r == AnalyzePathSpec(format, files, analyze, timestamp)
  {
    if !KnownFormat(format) {
      return Err("Unsupported format: " + format);
    }
    var findings, analyzed := CollectFiles(files, analyze);
    var summary := TallyFindings(findings, StartSummary(analyzed));
    return Ok(Analysis(timestamp, summary, findings));
  }

  /** `analyze_path` as written: unknown formats still raise first; otherwise
      the loops run and `return violations` raises `NameError`. */
  function AnalyzePathAsWritten(format: string, files: seq<string>, analyze: string -> Result<seq<Finding>>,
                                timestamp: string): (r: Result<Analysis>)
    ensures !KnownFormat(format) ==> r == Err("Unsupported format: " + format)
  {
    var _ :- AnalyzePathSpec(format, files, analyze, timestamp);
    Err("name 'violations' is not defined")
  }

  // ---- Reference counts ----

  /** How many files were analysed without raising. */
  function Succeeded(files: seq<string>, analyze: string -> Result<seq<Finding>>): nat
    decreases |files|
  {
    if files == [] then 0 else (if analyze(files[0]).Ok? then 1 else 0) + Succeeded(files[1..], analyze)
  }

  /** What each file contributes to `findings`, in file order. */
  function Entries(files: seq<string>, analyze: string -> Result<seq<Finding>>): seq<Finding>
    decreases |files|
  {
    if files == [] then []
    else
      (match analyze(files[0])
       case Ok(fs) => fs
       case Err(e) => [FailureEntry(files[0], e)]) + Entries(files[1..], analyze)
  }

  /** Findings that carry a severity. */
  function WithSeverity(findings: seq<Finding>): nat
    decreases |findings|
  {
    if findings == [] then 0 else (if findings[0].severity.Some? then 1 else 0) + WithSeverity(findings[1..])
  }

  /** Findings whose lowercased severity is `key`. */
  function SeverityCount(findings: seq<Finding>, key: string): nat
    decreases |findings|
  {
    if findings == [] then 0
    else (if findings[0].severity.Some? && Lower(findings[0].severity.value) == key then 1 else 0)
         + SeverityCount(findings[1..], key)
  }

  lemma {:induction false} CollectIsEntries(files: seq<string>, analyze: string -> Result<seq<Finding>>, p: Progress)
    ensures Collect(files, analyze, p) == Progress(p.findings + Entries(files, analyze), p.analyzed + Succeeded(files, analyze))
    decreases |files|
  {
    if files == [] {
      assert p.findings + [] == p.findings;
    } else {
      var q := Visit(p, files[0], analyze(files[0]));
      CollectIsEntries(files[1..], analyze, q);
      match analyze(files[0]) {
        case Ok(fs) =>
          assert (p.findings + fs) + Entries(files[1..], analyze) == p.findings + (fs + Entries(files[1..], analyze));
        case Err(e) =>
          assert (p.findings + [FailureEntry(files[0], e)]) + Entries(files[1..], analyze)
              == p.findings + ([FailureEntry(files[0], e)] + Entries(files[1..], analyze));
      }
    }
  }

  /** The tally adds, to each counter other than `total_issues`, the number
      of findings whose lowercased severity names it; `total_issues` gains
      one per finding with a severity, plus one more for each severity that
      itself lowercases to "total_issues". */
  lemma {:induction false} TallyCounts(findings: seq<Finding>, summary: map<string, int>, key: string)
    ensures key != "total_issues" ==>
              Counter(Tally(findings, summary), key) == Counter(summary, key) + SeverityCount(findings, key)
    ensures Counter(Tally(findings, summary), "total_issues")
         == Counter(summary, "total_issues") + WithSeverity(findings) + SeverityCount(findings, "total_issues")
    decreases |findings|
  {
    if findings != [] {
      TallyCounts(findings[1..], Count(summary, findings[0]), key);
    }
  }

  /** Tallying never removes a counter. */
  lemma {:induction false} TallyKeepsKeys(findings: seq<Finding>, summary: map<string, int>)
    ensures summary.Keys <= Tally(findings, summary).Keys
    decreases |findings|
  {
    if findings != [] {
      TallyKeepsKeys(findings[1..], Count(summary, findings[0]));
    }
  }

  lemma {:induction false} FailureEntriesHaveNoSeverity(files: seq<string>, analyze: string -> Result<seq<Finding>>)
    requires forall f, g :: analyze(f).Ok? && g in analyze(f).value ==> g.severity.Some?
    ensures WithSeverity(Entries(files, analyze)) == SeverityTotal(files, analyze)
    decreases |files|
  {
    if files != [] {
      FailureEntriesHaveNoSeverity(files[1..], analyze);
      var head := match analyze(files[0]) case Ok(fs) => fs case Err(e) => [FailureEntry(files[0], e)];
      WithSeverityAppend(head, Entries(files[1..], analyze));
      if analyze(files[0]).Ok? {
        AllWithSeverity(head);
      }
    }
  }

  /** The number of findings of the files that were analysed. */
  function SeverityTotal(files: seq<string>, analyze: string -> Result<seq<Finding>>): nat
    decreases |files|
  {
    if files == [] then 0
    else (if analyze(files[0]).Ok? then |analyze(files[0]).value| else 0) + SeverityTotal(files[1..], analyze)
  }

  lemma {:induction false} WithSeverityAppend(a: seq<Finding>, b: seq<Finding>)
    ensures WithSeverity(a + b) == WithSeverity(a) + WithSeverity(b)
    decreases |a|
  {
    if a == [] {
      assert a + b == b;
    } else {
      assert (a + b)[1..] == a[1..] + b;
      WithSeverityAppend(a[1..], b);
    }
  }

  lemma {:induction false} AllWithSeverity(fs: seq<Finding>)
    requires forall g <- fs :: g.severity.Some?
    ensures WithSeverity(fs) == |fs|
    decreases |fs|
  {
    if fs != [] {
      assert forall g <- fs[1..] :: g in fs;
      AllWithSeverity(fs[1..]);
    }
  }

  // ---- Properties of `analyze_path` ----

  /** An unknown format fails before any file is analysed. */
  lemma UnknownFormatFails(format: string, files: seq<string>, analyze: string -> Result<seq<Finding>>, timestamp: string)
    requires !KnownFormat(format)
    ensures AnalyzePathSpec(format, files, analyze, timestamp) == Err("Unsupported format: " + format)
  {
  }

  /** With a known format, the result is the tally of all entries, started
      from the number of files analysed. */
  lemma SpecResult(format: string, files: seq<string>, analyze: string -> Result<seq<Finding>>, timestamp: string)
    requires KnownFormat(format)
    ensures AnalyzePathSpec(format, files, analyze, timestamp)
         == Ok(Analysis(timestamp, Tally(Entries(files, analyze), StartSummary(Succeeded(files, analyze))), Entries(files, analyze)))
  {
    var entries := Entries(files, analyze);
    var p := Collect(files, analyze, Progress([], 0));
    CollectIsEntries(files, analyze, Progress([], 0));
    assert [] + entries == entries;
    assert p.findings == entries;
    assert p.analyzed == Succeeded(files, analyze);
  }

  /** The starting counters: `files_analyzed` as given, the others zero. */
  lemma StartCounters(analyzed: int, key: string)
    requires key == "critical" || key == "high" || key == "medium" || key == "low" || key == "total_issues"
    ensures Counter(StartSummary(analyzed), "files_analyzed") == analyzed
    ensures Counter(StartSummary(analyzed), key) == 0
  {
    assert key[0] != "files_analyzed"[0];
  }

  /** The findings are every file's entries in file order, and
      `files_analyzed` is the number of files analysed without raising
      (plus any finding whose severity is spelled "files_analyzed"). */
  lemma FindingsAndFilesAnalyzed(format: string, files: seq<string>, analyze: string -> Result<seq<Finding>>, timestamp: string)
    requires KnownFormat(format)
    ensures var r := AnalyzePathSpec(format, files, analyze, timestamp);
            r.Ok? && r.value.findings == Entries(files, analyze) &&
            Counter(r.value.summary, "files_analyzed")
              == Succeeded(files, analyze) + SeverityCount(Entries(files, analyze), "files_analyzed")
  {
    SpecResult(format, files, analyze, timestamp);
    StartCounters(Succeeded(files, analyze), "low");
    assert "files_analyzed"[0] != "total_issues"[0];
    TallyCounts(Entries(files, analyze), StartSummary(Succeeded(files, analyze)), "files_analyzed");
  }

  /** Each severity counter is the number of findings with that severity,
      and `total_issues` is the number of findings with any severity (when
      no severity spells "total_issues"). */
  lemma SummaryCounts(format: string, files: seq<string>, analyze: string -> Result<seq<Finding>>, timestamp: string,
                      key: string)
    requires KnownFormat(format)
    requires key == "critical" || key == "high" || key == "medium" || key == "low"
    ensures var r := AnalyzePathSpec(format, files, analyze, timestamp);
            var fs := Entries(files, analyze);
            r.Ok? &&
            Counter(r.value.summary, key) == SeverityCount(fs, key) &&
            (SeverityCount(fs, "total_issues") == 0 ==> Counter(r.value.summary, "total_issues") == WithSeverity(fs))
  {
    SpecResult(format, files, analyze, timestamp);
    var summary := StartSummary(Succeeded(files, analyze));
    StartCounters(Succeeded(files, analyze), key);
    StartCounters(Succeeded(files, analyze), "total_issues");
    assert key[0] != "total_issues"[0];
    TallyCounts(Entries(files, analyze), summary, key);
  }

  /** Failure entries are never counted: when every successful analysis
      yields findings with a severity, `total_issues` is the number of
      findings of the files that were analysed. */
  lemma FailuresNotCounted(format: string, files: seq<string>, analyze: string -> Result<seq<Finding>>, timestamp: string)
    requires KnownFormat(format)
    requires forall f, g :: analyze(f).Ok? && g in analyze(f).value ==> g.severity.Some?
    ensures var r := AnalyzePathSpec(format, files, analyze, timestamp);
            r.Ok? &&
            (SeverityCount(Entries(files, analyze), "total_issues") == 0 ==>
               Counter(r.value.summary, "total_issues") == SeverityTotal(files, analyze))
  {
    SummaryCounts(format, files, analyze, timestamp, "low");
    FailureEntriesHaveNoSeverity(files, analyze);
  }

  /** No files: nothing analysed and nothing counted. */
  lemma NoFiles(format: string, analyze: string -> Result<seq<Finding>>, timestamp: string)
    requires KnownFormat(format)
    ensures var r := AnalyzePathSpec(format, [], analyze, timestamp);
            r.Ok? && r.value.summary == InitialSummary() && r.value.findings == []
  {
    assert StartSummary(0) == InitialSummary();
  }

  /** As written, every analysis of a known format fails, so no caller ever
      sees a summary; the no-files case included. */
  lemma AsWrittenNeverReturns(format: string, files: seq<string>, analyze: string -> Result<seq<Finding>>, timestamp: string)
    requires KnownFormat(format)
    ensures AnalyzePathAsWritten(format, files, analyze, timestamp) == Err("name 'violations' is not defined")
  {
  }
}
