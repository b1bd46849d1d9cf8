/** The in-memory placeholder store (`sqliteStub`, internal/storage/storage.go):
    three lists that saves append to and queries copy out.  The mutex only
    serialises calls, so each call is a function from one state to the next. */
module MemStore {
  import opened Wrappers
  import opened Model

  datatype Store = Store(events: seq<TimelineEvent>, artifacts: seq<Artifact>, findings: seq<Finding>)

  /** `NewSQLiteStub`: all three lists empty. */
  function NewStore(): (s: Store)
    ensures |s.events| == 0 && |s.artifacts| == 0 && |s.findings| == 0
  {
    Store([], [], [])
  }

  /** `InitCase` and `RegisterEvidence` accept anything and change nothing. */
  function InitCase(s: Store, casePath: string): (r: (Store, Result<()>))
    ensures r.0 == s && r.1.Ok?
  {
    (s, Ok(()))
  }

  function RegisterEvidence(s: Store, path: string, sizeBytes: int, isDir: bool): (r: (Store, Result<()>))
    ensures r.0 == s && r.1.Ok?
  {
    (s, Ok(()))
  }

  /** `SaveTimeline`: the earlier events stay first, the new ones follow in
      their order; it never fails. */
  function SaveTimeline(s: Store, events: seq<TimelineEvent>): (r: (Store, Result<()>))
    ensures r.1.Ok?
    ensures |r.0.events| == |s.events| + |events|
    ensures r.0.events[..|s.events|] == s.events && r.0.events[|s.events|..] == events
    ensures r.0.artifacts == s.artifacts && r.0.findings == s.findings
  {
    (s.(events := s.events + events), Ok(()))
  }

  function SaveArtifacts(s: Store, artifacts: seq<Artifact>): (r: (Store, Result<()>))
    ensures r.1.Ok?
    ensures |r.0.artifacts| == |s.artifacts| + |artifacts|
    ensures r.0.artifacts[..|s.artifacts|] == s.artifacts && r.0.artifacts[|s.artifacts|..] == artifacts
    ensures r.0.events == s.events && r.0.findings == s.findings
  {
    (s.(artifacts := s.artifacts + artifacts), Ok(()))
  }

  function SaveFindings(s: Store, findings: seq<Finding>): (r: (Store, Result<()>))
    ensures r.1.Ok?
    ensures |r.0.findings| == |s.findings| + |findings|
    ensures r.0.findings[..|s.findings|] == s.findings && r.0.findings[|s.findings|..] == findings
    ensures r.0.events == s.events && r.0.artifacts == s.artifacts
  {
    (s.(findings := s.findings + findings), Ok(()))
  }

  /** `QueryTimeline`: a missing filter is an error; any filter at all gets
      every saved event, in save order. */
  function QueryTimeline(s: Store, filter: Option<TimelineFilter>): (r: Result<seq<TimelineEvent>>)
    ensures filter.None? <==> r.Err?
    ensures r.Err? ==> r.msg == "filter required"
    ensures r.Ok? ==> |r.value| == |s.events| && forall i :: 0 <= i < |r.value| ==> r.value[i] == s.events[i]
  {
    if filter.None? then Err("filter required") else Ok(s.events)
  }

  function QueryFindings(s: Store): (r: Result<seq<Finding>>)
    ensures r.Ok? && |r.value| == |s.findings|
    ensures forall i :: 0 <= i < |r.value| ==> r.value[i] == s.findings[i]
  {
    Ok(s.findings)
  }

  /** Concatenation of a list of batches. */
  function Flatten<T>(batches: seq<seq<T>>): seq<T> {
    if |batches| == 0 then [] else Flatten(batches[..|batches| - 1]) + batches[|batches| - 1]
  }

  /** The store after saving each batch of events in turn. */
  function SaveAll(s: Store, batches: seq<seq<TimelineEvent>>): Store {
    if |batches| == 0 then s else SaveTimeline(SaveAll(s, batches[..|batches| - 1]), batches[|batches| - 1]).0
  }

  /** Saving batches one after another and then querying with any filter
      gives back every event of every batch, batch by batch. */
  lemma {:induction false} QueryAfterSaves(batches: seq<seq<TimelineEvent>>, filter: TimelineFilter)
    ensures QueryTimeline(SaveAll(NewStore(), batches), Some(filter)) == Ok(Flatten(batches))
  {
    if |batches| > 0 {
      var init := batches[..|batches| - 1];
      QueryAfterSaves(init, filter);
      var before := SaveAll(NewStore(), init);
      var after := SaveTimeline(before, batches[|batches| - 1]).0;
      assert after.events == before.events + batches[|batches| - 1];
    }
  }

  /** Which filter is given makes no difference, as long as one is. */
  lemma QueryIgnoresFilter(s: Store, f: TimelineFilter, g: TimelineFilter)
    ensures QueryTimeline(s, Some(f)) == QueryTimeline(s, Some(g))
  {
  }

  /** Saving events leaves the findings query as it was, and saving findings
      leaves the timeline query as it was. */
  lemma SavesAreIndependent(s: Store, events: seq<TimelineEvent>, findings: seq<Finding>, filter: TimelineFilter)
    ensures QueryFindings(SaveTimeline(s, events).0) == QueryFindings(s)
    ensures QueryTimeline(SaveFindings(s, findings).0, Some(filter)) == QueryTimeline(s, Some(filter))
  {
  }
}
