/** The two built-in analyzers (pkg/analyzers) and the pipeline step that
    runs them over the stored timeline (`Pipeline.Analyze`,
    internal/engine/pipeline.go). */
module Analyzers {
  import opened Wrappers
  import opened GoStr
  import opened Model
  import opened Seqs
  import Prefetch

  // ---------------------------------------------------------------------
  // Temp execution (pkg/analyzers/temp_exec_stub.go)

  /** The finding for an event whose lower-cased path contains "temp"; an
      event without a path is skipped. */
  function TempFinding(ev: TimelineEvent): Option<Finding> {
    var path := Lower(Detail(ev.details, "path"));
    if path == "" then None
    else if Contains(path, "temp") then
      Some(Finding("temp-exec-" + ev.id, "medium", "Execution from temp-like path",
                   "Timeline " + ev.id + " executed from " + path, "temp-exec", [ev.evidence]))
    else None
  }

  /** `f` is the temp-path finding for `ev`: medium severity, rule
      "temp-exec", citing the event's evidence, for a path containing
      "temp". */
  predicate ReportsTemp(f: Finding, ev: TimelineEvent) {
    && Contains(Lower(Detail(ev.details, "path")), "temp")
    && f.id == "temp-exec-" + ev.id && f.evidenceRefs == [ev.evidence]
    && f.severity == "medium" && f.ruleId == "temp-exec"
  }

  lemma TempFindingShape(ev: TimelineEvent)
    ensures TempFinding(ev).Some? ==> ReportsTemp(TempFinding(ev).value, ev)
  {
  }

  /** `TempExecutionAnalyzer.Analyze`: at most one finding per event, in
      timeline order, each reporting an event with "temp" in its path. */
  function TempExecution(timeline: seq<TimelineEvent>): (r: seq<Finding>)
    ensures |r| <= |timeline|
    ensures forall i :: 0 <= i < |r| ==> exists j :: 0 <= j < |timeline| && ReportsTemp(r[i], timeline[j])
  {
    var rs := FilterMap(timeline, TempFinding);
    assert forall i :: 0 <= i < |rs| ==> exists j :: 0 <= j < |timeline| && ReportsTemp(rs[i], timeline[j]) by {
      forall i | 0 <= i < |rs|
        ensures exists j :: 0 <= j < |timeline| && ReportsTemp(rs[i], timeline[j])
      {
        var j :| 0 <= j < |timeline| && TempFinding(timeline[j]) == Some(rs[i]);
        TempFindingShape(timeline[j]);
      }
    }
    rs
  }

  /** An event is flagged exactly when its lower-cased path contains
      "temp"; the test for an empty path changes nothing, since an empty
      path contains no "temp". */
  lemma TempFlagsIff(ev: TimelineEvent)
    ensures TempFinding(ev).Some? <==> Contains(Lower(Detail(ev.details, "path")), "temp")
  {
    if Lower(Detail(ev.details, "path")) == "" {
      ShortNotContains("", "temp");
    }
  }

  /** Every event with "temp" in its path yields its finding. */
  lemma TempEventFlagged(timeline: seq<TimelineEvent>, j: nat)
    requires j < |timeline| && Contains(Lower(Detail(timeline[j].details, "path")), "temp")
    ensures TempFinding(timeline[j]).Some? && TempFinding(timeline[j]).value in TempExecution(timeline)
  {
    TempFlagsIff(timeline[j]);
    FilterMapKeeps(timeline, TempFinding, j);
  }

  /** Every event whose path mentions "temp" is reported. */
  lemma TempEventsFlagged(timeline: seq<TimelineEvent>)
    ensures forall j :: 0 <= j < |timeline| && Contains(Lower(Detail(timeline[j].details, "path")), "temp") ==>
              TempFinding(timeline[j]).Some? && TempFinding(timeline[j]).value in TempExecution(timeline)
  {
    forall j | 0 <= j < |timeline| && Contains(Lower(Detail(timeline[j].details, "path")), "temp")
      ensures TempFinding(timeline[j]).Some? && TempFinding(timeline[j]).value in TempExecution(timeline)
    {
      TempEventFlagged(timeline, j);
    }
  }

  /** The analysis of a longer timeline extends that of its prefix: findings
      follow timeline order. */
  lemma TempExecutionAppend(a: seq<TimelineEvent>, b: seq<TimelineEvent>)
    ensures TempExecution(a + b) == TempExecution(a) + TempExecution(b)
  {
    FilterMapAppend(a, b, TempFinding);
  }

  // ---------------------------------------------------------------------
  // Execution without prefetch evidence (pkg/analyzers/execution_anomaly.go)

  const ProcessSource: string := "wintri-process"

  /** Process names that never leave a prefetch file. */
  const ExemptNames: set<string> := {"SYSTEM", "SYSTEM IDLE PROCESS", "REGISTRY", "MEMORY COMPRESSION"}

  /** The upper-cased subjects of the events from `source`. */
  function PrefetchNames(timeline: seq<TimelineEvent>, source: string): (r: set<string>)
    ensures forall x :: x in r <==> exists k :: 0 <= k < |timeline| && timeline[k].source == source
                                                && Upper(timeline[k].subject) == x
  {
    if |timeline| == 0 then {}
    else
      var init := timeline[..|timeline| - 1];
      var last := timeline[|timeline| - 1];
      var rest := PrefetchNames(init, source);
      assert forall k :: 0 <= k < |init| ==> init[k] == timeline[k];
      rest + (if last.source == source then {Upper(last.subject)} else {})
  }

  const AnomalyTitle: string := "Process Execution without Prefetch Evidence"

  const AnomalyExplanation: string :=
    ") is running but no corresponding Prefetch file was found. This could indicate time-stomping,"
    + " prefetch disabling, or execution from a location that does not generate prefetch"
    + " (e.g. some removable media configurations)."

  function AnomalyFinding(proc: TimelineEvent): Finding {
    Finding("anomaly-no-pf-" + proc.id, "high", AnomalyTitle,
            "Process " + proc.subject + " (PID: " + Detail(proc.details, "pid") + AnomalyExplanation,
            "exec-anomaly-no-prefetch", [proc.evidence])
  }

  /** Whether a process event is reported, given the prefetch names. */
  predicate Unexplained(names: set<string>, ev: TimelineEvent) {
    ev.source == ProcessSource && Upper(ev.subject) !in ExemptNames && Upper(ev.subject) !in names
  }

  function AnomalyOf(names: set<string>): TimelineEvent -> Option<Finding> {
    ev => AnomalyHit(names, ev)
  }

  function AnomalyHit(names: set<string>, ev: TimelineEvent): Option<Finding> {
    if Unexplained(names, ev) then Some(AnomalyFinding(ev)) else None
  }

  /** The second pass: one high-severity finding per unexplained process, in
      timeline order. */
  function AnomalyScan(timeline: seq<TimelineEvent>, names: set<string>): (r: seq<Finding>)
    ensures |r| <= |timeline|
    ensures forall i :: 0 <= i < |r| ==>
              exists j :: 0 <= j < |timeline| && Unexplained(names, timeline[j]) && r[i] == AnomalyFinding(timeline[j])
    ensures forall i :: 0 <= i < |r| ==> r[i].severity == "high" && r[i].ruleId == "exec-anomaly-no-prefetch"
  {
    var rs := FilterMap(timeline, AnomalyOf(names));
    assert forall i :: 0 <= i < |rs| ==> exists j :: 0 <= j < |timeline| && AnomalyOf(names)(timeline[j]) == Some(rs[i]);
    rs
  }

  /** The scan of a joined timeline is the scans of its parts, joined:
      findings follow timeline order. */
  lemma AnomalyScanAppend(a: seq<TimelineEvent>, b: seq<TimelineEvent>, names: set<string>)
    ensures AnomalyScan(a + b, names) == AnomalyScan(a, names) + AnomalyScan(b, names)
  {
    FilterMapAppend(a, b, AnomalyOf(names));
  }

  /** One event gives its finding when it is unexplained and nothing
      otherwise, so equal unexplained events are each reported. */
  lemma AnomalyScanOne(ev: TimelineEvent, names: set<string>)
    ensures AnomalyScan([ev], names) == if Unexplained(names, ev) then [AnomalyFinding(ev)] else []
  {
    assert [ev][1..] == [];
    assert AnomalyOf(names)(ev) == AnomalyHit(names, ev);
  }

  /** With the names gathered from the whole timeline, the findings of a
      timeline are those of its parts, in order. */
  lemma ExecutionAnomalyAppend(a: seq<TimelineEvent>, b: seq<TimelineEvent>, prefetchSource: string)
    ensures var names := PrefetchNames(a + b, prefetchSource);
            ExecutionAnomaly(a + b, prefetchSource) == AnomalyScan(a, names) + AnomalyScan(b, names)
  {
    AnomalyScanAppend(a, b, PrefetchNames(a + b, prefetchSource));
  }

  /** The source the analyzer takes prefetch names from in the code as
      written, and the source the prefetch parser actually emits. */
  const AsWrittenPrefetchSource: string := "prefetch"
  const PrefetchSource: string := "Prefetch"

  /** `ExecutionAnomalyAnalyzer.Analyze`, with the prefetch names taken from
      the events whose source is `prefetchSource`: every unexplained process
      event is reported, in timeline order, and nothing else. */
  function ExecutionAnomaly(timeline: seq<TimelineEvent>, prefetchSource: string): (r: seq<Finding>)
    ensures |r| <= |timeline|
    ensures forall i :: 0 <= i < |r| ==> r[i].severity == "high" && r[i].ruleId == "exec-anomaly-no-prefetch"
    ensures forall i :: 0 <= i < |r| ==>
              exists j :: 0 <= j < |timeline| && Unexplained(PrefetchNames(timeline, prefetchSource), timeline[j])
                          && r[i] == AnomalyFinding(timeline[j])
    ensures forall j :: 0 <= j < |timeline| && Unexplained(PrefetchNames(timeline, prefetchSource), timeline[j]) ==>
              AnomalyFinding(timeline[j]) in r
  {
    var names := PrefetchNames(timeline, prefetchSource);
    forall j | 0 <= j < |timeline| && Unexplained(names, timeline[j])
      ensures AnomalyFinding(timeline[j]) in AnomalyScan(timeline, names)
    {
      ReportedIn(timeline, names, j);
    }
    AnomalyScan(timeline, names)
  }

  /** With the names taken from the parser's "Prefetch" events, both
      directions: a process is reported exactly when it is a non-exempt
      process event and no prefetch event carries its name up to case. */
  lemma ReportedIff(timeline: seq<TimelineEvent>, j: nat)
    requires j < |timeline|
    ensures AnomalyFinding(timeline[j]) in ExecutionAnomaly(timeline, PrefetchSource)
            <== (&& timeline[j].source == ProcessSource
                 && Upper(timeline[j].subject) !in ExemptNames
                 && !exists k :: 0 <= k < |timeline| && timeline[k].source == PrefetchSource
                                 && Upper(timeline[k].subject) == Upper(timeline[j].subject))
    ensures Unexplained(PrefetchNames(timeline, PrefetchSource), timeline[j])
            <==> (&& timeline[j].source == ProcessSource
                  && Upper(timeline[j].subject) !in ExemptNames
                  && !exists k :: 0 <= k < |timeline| && timeline[k].source == PrefetchSource
                                  && Upper(timeline[k].subject) == Upper(timeline[j].subject))
  {
    UnexplainedIff(timeline, timeline[j]);
    if Unexplained(PrefetchNames(timeline, PrefetchSource), timeline[j]) {
      assert AnomalyFinding(timeline[j]) in ExecutionAnomaly(timeline, PrefetchSource);
    }
  }

  lemma UnexplainedIff(timeline: seq<TimelineEvent>, ev: TimelineEvent)
    ensures Unexplained(PrefetchNames(timeline, PrefetchSource), ev)
            <==> (&& ev.source == ProcessSource
                  && Upper(ev.subject) !in ExemptNames
                  && !exists k :: 0 <= k < |timeline| && timeline[k].source == PrefetchSource
                                  && Upper(timeline[k].subject) == Upper(ev.subject))
  {
    var names := PrefetchNames(timeline, PrefetchSource);
    assert Upper(ev.subject) in names <==> exists k :: 0 <= k < |timeline| && timeline[k].source == PrefetchSource
                                                     && Upper(timeline[k].subject) == Upper(ev.subject);
  }

  lemma ReportedIn(timeline: seq<TimelineEvent>, names: set<string>, j: nat)
    requires j < |timeline| && Unexplained(names, timeline[j])
    ensures AnomalyFinding(timeline[j]) in AnomalyScan(timeline, names)
  {
    var f := AnomalyOf(names);
    assert f(timeline[j]) == Some(AnomalyFinding(timeline[j]));
    FilterMapKeeps(timeline, f, j);
  }

  /** The prefetch parser's events carry the source "Prefetch", never
      "prefetch". */
  lemma PrefetchEventsAreCapitalised(info: Prefetch.PfInfo, path: string, now: Instant)
    ensures Prefetch.PrefetchEvent(info, path, now).source == "Prefetch"
    ensures Prefetch.PrefetchEvent(info, path, now).source != "prefetch"
  {
  }

  /** As written, a timeline with prefetch evidence for a running process
      still reports that process; the corrected analyzer does not. */
  lemma AsWrittenIgnoresPrefetchParser(info: Prefetch.PfInfo, path: string, now: Instant, proc: TimelineEvent)
    requires info.executable == "CMD.EXE"
    requires proc.source == ProcessSource && proc.subject == "cmd.exe"
    ensures var timeline := [Prefetch.PrefetchEvent(info, path, now), proc];
            && ExecutionAnomaly(timeline, AsWrittenPrefetchSource) == [AnomalyFinding(proc)]
            && ExecutionAnomaly(timeline, PrefetchSource) == []
  {
    var timeline := [Prefetch.PrefetchEvent(info, path, now), proc];
    var pf := timeline[0];
    assert Upper("cmd.exe") == "CMD.EXE";
    assert Upper("CMD.EXE") == "CMD.EXE";
    assert PrefetchNames(timeline, "prefetch") == {} by {
      assert pf.source == "Prefetch";
    }
    assert "CMD.EXE" in PrefetchNames(timeline, "Prefetch") by {
      assert timeline[0].source == "Prefetch" && Upper(timeline[0].subject) == "CMD.EXE";
    }
    assert "CMD.EXE" !in ExemptNames;
    var asWritten := AnomalyOf(PrefetchNames(timeline, "prefetch"));
    var fixed := AnomalyOf(PrefetchNames(timeline, "Prefetch"));
    assert asWritten(pf) == None && fixed(pf) == None;
    assert asWritten(proc) == Some(AnomalyFinding(proc));
    assert fixed(proc) == None;
    assert timeline == [pf] + [proc];
    FilterMapAppend([pf], [proc], asWritten);
    FilterMapAppend([pf], [proc], fixed);
  }

  // ---------------------------------------------------------------------
  // Running the analyzers (internal/plugin/registry.go, pipeline.go)

  datatype AnalyzerKind = TempExecutionAnalyzer | ExecutionAnomalyAnalyzer

  /** The built-in analyzers, in registration order. */
  const DefaultAnalyzers: seq<AnalyzerKind> := [TempExecutionAnalyzer, ExecutionAnomalyAnalyzer]

  /** One registered analyzer over the timeline.  The anomaly analyzer runs
      as written, taking prefetch names from "prefetch" events only. */
  function Run(a: AnalyzerKind, timeline: seq<TimelineEvent>): seq<Finding> {
    match a
    case TempExecutionAnalyzer => TempExecution(timeline)
    case ExecutionAnomalyAnalyzer => ExecutionAnomaly(timeline, AsWrittenPrefetchSource)
  }

  /** What each registered analyzer reports: the temp-path analyzer exactly
      the events whose path mentions "temp"; the anomaly analyzer, as
      registered, exactly the unexplained processes given the names of
      "prefetch" events. */
  lemma RunReports(a: AnalyzerKind, timeline: seq<TimelineEvent>)
    ensures a == TempExecutionAnalyzer ==>
              forall i :: 0 <= i < |Run(a, timeline)| ==>
                exists j :: 0 <= j < |timeline| && ReportsTemp(Run(a, timeline)[i], timeline[j])
    ensures a == TempExecutionAnalyzer ==>
              forall j :: 0 <= j < |timeline| && Contains(Lower(Detail(timeline[j].details, "path")), "temp") ==>
                TempFinding(timeline[j]).Some? && TempFinding(timeline[j]).value in Run(a, timeline)
    ensures a == ExecutionAnomalyAnalyzer ==>
              forall i :: 0 <= i < |Run(a, timeline)| ==>
                exists j :: 0 <= j < |timeline| && Unexplained(PrefetchNames(timeline, AsWrittenPrefetchSource), timeline[j])
                            && Run(a, timeline)[i] == AnomalyFinding(timeline[j])
    ensures a == ExecutionAnomalyAnalyzer ==>
              forall j :: 0 <= j < |timeline| && Unexplained(PrefetchNames(timeline, AsWrittenPrefetchSource), timeline[j]) ==>
                AnomalyFinding(timeline[j]) in Run(a, timeline)
  {
    match a
    case TempExecutionAnalyzer =>
      assert Run(a, timeline) == TempExecution(timeline);
      TempEventsFlagged(timeline);
    case ExecutionAnomalyAnalyzer =>
      assert Run(a, timeline) == ExecutionAnomaly(timeline, AsWrittenPrefetchSource);
  }

  /** The batches `Pipeline.Analyze` hands to the store's `SaveFindings`,
      in order, until one save fails (`save` gives its error for a batch, if
      any); the first error ends the step. */
  function SaveInTurn(batches: seq<seq<Finding>>, save: seq<Finding> -> Option<string>)
    : (r: (seq<seq<Finding>>, Option<string>))
    ensures |r.0| <= |batches| && r.0 == batches[..|r.0|]
    ensures r.1.None? <==> (forall i :: 0 <= i < |batches| ==> save(batches[i]).None?)
    ensures r.1.None? ==> r.0 == batches
    ensures r.1.Some? ==> |r.0| > 0 && save(r.0[|r.0| - 1]) == r.1
                          && forall i :: 0 <= i < |r.0| - 1 ==> save(r.0[i]).None?
  {
    if |batches| == 0 then ([], None)
    else
      match save(batches[0])
      case Some(e) => ([batches[0]], Some(e))
      case None =>
        var rest := SaveInTurn(batches[1..], save);
        assert forall i :: 1 <= i < |batches| ==> batches[i] == batches[1..][i - 1];
        ([batches[0]] + rest.0, rest.1)
  }

  /** `Pipeline.Analyze`: run each analyzer over the timeline and save its
      findings, stopping at the first failed save. */
  function Analyze(analyzers: seq<AnalyzerKind>, timeline: seq<TimelineEvent>,
                   save: seq<Finding> -> Option<string>): (r: (seq<seq<Finding>>, Option<string>))
    ensures |r.0| <= |analyzers|
    ensures forall i :: 0 <= i < |r.0| ==> r.0[i] == Run(analyzers[i], timeline)
    ensures r.1.None? <==> forall i :: 0 <= i < |analyzers| ==> save(Run(analyzers[i], timeline)).None?
    ensures r.1.None? ==> |r.0| == |analyzers|
    ensures r.1.Some? ==> |r.0| > 0 && r.1 == save(Run(analyzers[|r.0| - 1], timeline))
  {
    var batches := seq(|analyzers|, i requires 0 <= i < |analyzers| => Run(analyzers[i], timeline));
    SavedBatchesOf(analyzers, a => Run(a, timeline), batches, save);
    SaveInTurn(batches, save)
  }

  /** `SaveInTurn` over the batches `f` makes of `xs`, stated in terms of
      `f`. */
  lemma SavedBatchesOf<A>(xs: seq<A>, f: A -> seq<Finding>, batches: seq<seq<Finding>>,
                          save: seq<Finding> -> Option<string>)
    requires |batches| == |xs| && forall i :: 0 <= i < |xs| ==> batches[i] == f(xs[i])
    ensures var r := SaveInTurn(batches, save);
            && |r.0| <= |xs|
            && (forall i :: 0 <= i < |r.0| ==> r.0[i] == f(xs[i]))
            && (r.1.None? <==> forall i :: 0 <= i < |xs| ==> save(f(xs[i])).None?)
            && (r.1.None? ==> |r.0| == |xs|)
            && (r.1.Some? ==> |r.0| > 0 && r.1 == save(f(xs[|r.0| - 1])))
  {
  }

  /** With a store that accepts every batch, the built-in analyzers save the
      temp-path findings first and then the anomaly findings, the latter as
      the code is written. */
  lemma DefaultOrder(timeline: seq<TimelineEvent>, save: seq<Finding> -> Option<string>)
    requires forall b :: save(b).None?
    ensures Analyze(DefaultAnalyzers, timeline, save)
            == ([TempExecution(timeline), ExecutionAnomaly(timeline, AsWrittenPrefetchSource)], None)
  {
    var batches := seq(|DefaultAnalyzers|, i requires 0 <= i < |DefaultAnalyzers| => Run(DefaultAnalyzers[i], timeline));
    assert batches == [TempExecution(timeline), ExecutionAnomaly(timeline, AsWrittenPrefetchSource)];
    var r := SaveInTurn(batches, save);
    assert Analyze(DefaultAnalyzers, timeline, save) == r;
    assert save(batches[0]).None? && save(batches[1]).None?;
    assert r.1.None?;
  }
}
