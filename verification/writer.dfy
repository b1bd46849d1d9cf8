/** The timeline writer of the triage pipeline (internal/engine/pipeline.go,
    lines 253-350): a sequential fold over the events the parsers send.  It
    classifies each event, applies a global cap and a 60% per-category cap
    to the bulk categories, marks events a detection rule matches, and
    writes them.  A failed write is counted like a successful one, so the
    model writes every event it admits. */
module Writer {
  import opened Wrappers
  import opened GoStr
  import opened Model
  import opened TimeConv
  import Sigma

  /** The default global limit. */
  const DefaultMaxEvents: nat := 100000

  /** The global limit from the `max_events` option, formatted with `%v`:
      its value when it reads as a positive integer, else the default. */
  function GlobalMaxEvents(maxEvents: Option<string>): (r: nat)
    ensures r > 0
    ensures maxEvents.None? ==> r == DefaultMaxEvents
  {
    match maxEvents
    case None => DefaultMaxEvents
    case Some(s) =>
      match Atoi(s)
      case Some(v) => if v > 0 then v else DefaultMaxEvents
      case None => DefaultMaxEvents
  }

  /** A positive limit written out in decimal is read back as itself; zero,
      a negative number or text gives the default. */
  lemma GlobalMaxEventsReadsBack(n: int)
    requires InInt64(n)
    ensures n > 0 ==> GlobalMaxEvents(Some(Itoa(n))) == n
    ensures n <= 0 ==> GlobalMaxEvents(Some(Itoa(n))) == DefaultMaxEvents
  {
    AtoiItoa(n);
  }

  // ---------------------------------------------------------------------
  // Classification and annotation

  datatype Category = EventLogCat | RegistryCat | PrefetchCat | OtherCat

  /** The fairness category of an event, by case-insensitive comparison of
      its source and artifact. */
  function Classify(ev: TimelineEvent): (c: Category)
    ensures c == EventLogCat <==> EqualFold(ev.source, "EventLog")
    ensures c == RegistryCat ==> EqualFold(ev.source, "Registry") || EqualFold(ev.artifact, "Registry")
    ensures c == PrefetchCat ==> EqualFold(ev.source, "Prefetch") || EqualFold(ev.artifact, "Prefetch")
    ensures c == OtherCat <==> !(EqualFold(ev.source, "EventLog") || EqualFold(ev.source, "Registry")
                                 || EqualFold(ev.artifact, "Registry") || EqualFold(ev.artifact, "Prefetch")
                                 || EqualFold(ev.source, "Prefetch"))
  {
    if EqualFold(ev.source, "EventLog") then EventLogCat
    else if EqualFold(ev.source, "Registry") || EqualFold(ev.artifact, "Registry") then RegistryCat
    else if EqualFold(ev.artifact, "Prefetch") || EqualFold(ev.source, "Prefetch") then PrefetchCat
    else OtherCat
  }

  predicate IsBulk(c: Category) {
    c != OtherCat
  }

  /** The detail keys a detection match writes. */
  const AlertKeys: set<string> := {"_Alert", "_AlertLevel", "_AlertRuleID", "_AlertDescription", "_Mitre"}

  /** `a` and `b` agree on every key outside `keys`. */
  ghost predicate AgreeOutside(a: Details, b: Details, keys: set<string>) {
    forall k :: k !in keys ==> (k in a <==> k in b) && (k in a ==> a[k] == b[k])
  }

  /** The event marked with the rule that matched it, if any. */
  function Annotate(ev: TimelineEvent, m: Option<Sigma.Rule>): (r: TimelineEvent)
    ensures m.None? ==> r == ev
    ensures r.(details := ev.details) == ev
    ensures AgreeOutside(r.details, ev.details, AlertKeys)
    ensures m.Some? ==> && "_Alert" in r.details && r.details["_Alert"] == m.value.title
                        && "_AlertLevel" in r.details && r.details["_AlertLevel"] == m.value.level
                        && "_AlertRuleID" in r.details && r.details["_AlertRuleID"] == m.value.id
                        && "_AlertDescription" in r.details
                        && r.details["_AlertDescription"] == m.value.description
    ensures m.Some? && |m.value.tags| > 0 ==> "_Mitre" in r.details && r.details["_Mitre"] == Join(m.value.tags, ", ")
    ensures m.Some? && |m.value.tags| == 0 ==>
              ("_Mitre" in r.details <==> "_Mitre" in ev.details)
              && ("_Mitre" in ev.details ==> r.details["_Mitre"] == ev.details["_Mitre"])
  {
    match m
    case None => ev
    case Some(rule) =>
      var d := ev.details["_Alert" := rule.title]["_AlertLevel" := rule.level]
                        ["_AlertRuleID" := rule.id]["_AlertDescription" := rule.description];
      ev.(details := if |rule.tags| > 0 then d["_Mitre" := Join(rule.tags, ", ")] else d)
  }

  /** Marking does not move an event to another category. */
  lemma AnnotateKeepsCategory(ev: TimelineEvent, m: Option<Sigma.Rule>)
    ensures Classify(Annotate(ev, m)) == Classify(ev)
  {
    assert Annotate(ev, m).source == ev.source && Annotate(ev, m).artifact == ev.artifact;
  }

  /** The rule to mark an event with: only event-log and registry events are
      evaluated, and only when the detection engine loaded. */
  function Detect(engine: Option<Sigma.Engine>, ev: TimelineEvent, ignoreCase: bool): (r: Option<Sigma.Rule>)
    requires engine.Some? ==> Sigma.Bucketed(engine.value)
    ensures r.Some? ==> engine.Some? && Classify(ev) in {EventLogCat, RegistryCat}
    ensures engine.Some? && Classify(ev) in {EventLogCat, RegistryCat} ==>
              r == Sigma.Evaluate(engine.value, ev, ignoreCase)
  {
    if engine.Some? && Classify(ev) in {EventLogCat, RegistryCat} then Sigma.Evaluate(engine.value, ev, ignoreCase)
    else None
  }

  // ---------------------------------------------------------------------
  // The fold

  /** The writer's counters and the events written so far. */
  datatype WriterState = WriterState(out: seq<TimelineEvent>, written: nat, eventLog: nat, registry: nat, prefetch: nat)

  const Start: WriterState := WriterState([], 0, 0, 0, 0)

  function BulkCount(st: WriterState, c: Category): nat {
    match c
    case EventLogCat => st.eventLog
    case RegistryCat => st.registry
    case PrefetchCat => st.prefetch
    case OtherCat => 0
  }

  /** The most events one bulk category may take: 60% of the limit,
      computed as `limit * 6 / 10` on Go's 64-bit `int`.  The product wraps
      around above 2^63 - 1, and the division truncates toward zero, so a
      limit above (2^63 - 1) / 6 can give a negative share. */
  function Share(limit: nat): (s: int)
    ensures limit * 6 <= MaxInt64 ==> s == limit * 6 / 10
    ensures Wrap64(limit * 6) < 0 ==> s <= 0
    ensures InInt64(s)
  {
    GoDiv(Wrap64(limit * 6), 10)
  }

  /** The share as a bound on a count: a share that is not positive admits
      nothing. */
  function Cap(limit: nat): nat {
    if Share(limit) > 0 then Share(limit) else 0
  }

  /** A `max_events` of 2 * 10^18 is accepted as a limit, but six times it
      wraps around to a negative number, so the share is negative. */
  lemma LargeLimitShareIsNegative()
    ensures InInt64(2000000000000000000)
    ensures Share(2000000000000000000) == -644674407370955161
  {
    assert Wrap64(2000000000000000000 * 6) == 2000000000000000000 * 6 - 0x1_0000_0000_0000_0000;
  }

  /** Number of events of category `c` in `es`. */
  function CountCat(es: seq<TimelineEvent>, c: Category): nat {
    if |es| == 0 then 0
    else CountCat(es[..|es| - 1], c) + (if Classify(es[|es| - 1]) == c then 1 else 0)
  }

  function CountBulk(es: seq<TimelineEvent>): nat {
    CountCat(es, EventLogCat) + CountCat(es, RegistryCat) + CountCat(es, PrefetchCat)
  }

  /** The events outside the bulk categories, in order. */
  function NonBulk(es: seq<TimelineEvent>): seq<TimelineEvent> {
    if |es| == 0 then []
    else NonBulk(es[..|es| - 1]) + (if IsBulk(Classify(es[|es| - 1])) then [] else [es[|es| - 1]])
  }

  /** `a` is `b`, possibly with alert keys set. */
  ghost predicate Marked(a: TimelineEvent, b: TimelineEvent) {
    a.(details := b.details) == b && AgreeOutside(a.details, b.details, AlertKeys)
  }

  /** `out` is an order-preserving selection from `events`, each possibly
      marked. */
  ghost predicate MarkedSubseq(out: seq<TimelineEvent>, events: seq<TimelineEvent>)
    decreases |events|
  {
    if |events| == 0 then out == []
    else
      || MarkedSubseq(out, events[..|events| - 1])
      || (|out| > 0 && Marked(out[|out| - 1], events[|events| - 1])
          && MarkedSubseq(out[..|out| - 1], events[..|events| - 1]))
  }

  /** The invariant the writer keeps: the counters count the written events,
      each bulk category holds at most its share, and all bulk events
      together at most the limit. */
  predicate Good(st: WriterState, limit: nat) {
    && st.written == |st.out|
    && st.eventLog == CountCat(st.out, EventLogCat)
    && st.registry == CountCat(st.out, RegistryCat)
    && st.prefetch == CountCat(st.out, PrefetchCat)
    && st.eventLog <= Cap(limit) && st.registry <= Cap(limit) && st.prefetch <= Cap(limit)
    && CountBulk(st.out) <= limit
  }

  /** Whether the writer takes an event of category `c`: non-bulk events
      always, bulk events while the total is under the limit and the
      category under its share. */
  predicate Admits(st: WriterState, c: Category, limit: nat) {
    !IsBulk(c) || (st.written < limit && BulkCount(st, c) < Share(limit))
  }

  /** The state after writing `a`: appended and counted in its category. */
  function Appended(st: WriterState, a: TimelineEvent): (st': WriterState)
    ensures st'.out == st.out + [a] && st'.written == st.written + 1
  {
    var out := st.out + [a];
    match Classify(a)
    case EventLogCat => WriterState(out, st.written + 1, st.eventLog + 1, st.registry, st.prefetch)
    case RegistryCat => WriterState(out, st.written + 1, st.eventLog, st.registry + 1, st.prefetch)
    case PrefetchCat => WriterState(out, st.written + 1, st.eventLog, st.registry, st.prefetch + 1)
    case OtherCat => WriterState(out, st.written + 1, st.eventLog, st.registry, st.prefetch)
  }

  /** The loop body for one received event. */
  function Step(st: WriterState, ev: TimelineEvent, limit: nat, engine: Option<Sigma.Engine>, ignoreCase: bool)
    : WriterState
    requires engine.Some? ==> Sigma.Bucketed(engine.value)
  {
    var c := Classify(ev);
    if !Admits(st, c, limit) then st
    else
      var out := st.out + [Annotate(ev, Detect(engine, ev, ignoreCase))];
      match c
      case EventLogCat => WriterState(out, st.written + 1, st.eventLog + 1, st.registry, st.prefetch)
      case RegistryCat => WriterState(out, st.written + 1, st.eventLog, st.registry + 1, st.prefetch)
      case PrefetchCat => WriterState(out, st.written + 1, st.eventLog, st.registry, st.prefetch + 1)
      case OtherCat => WriterState(out, st.written + 1, st.eventLog, st.registry, st.prefetch)
  }

  lemma CountAppend(es: seq<TimelineEvent>, e: TimelineEvent, c: Category)
    ensures CountCat(es + [e], c) == CountCat(es, c) + (if Classify(e) == c then 1 else 0)
    ensures NonBulk(es + [e]) == NonBulk(es) + (if IsBulk(Classify(e)) then [] else [e])
  {
    assert (es + [e])[..|es|] == es;
  }

  lemma CountBulkAtMostLength(es: seq<TimelineEvent>)
    ensures CountBulk(es) <= |es|
  {
    if |es| > 0 {
      CountBulkAtMostLength(es[..|es| - 1]);
    }
  }

  /** One step keeps the invariant; an admitted event is appended, marked
      with the engine's verdict, and a refused one changes nothing; only bulk
      events are refused. */
  lemma StepKeeps(st: WriterState, ev: TimelineEvent, limit: nat, engine: Option<Sigma.Engine>, ignoreCase: bool)
    requires engine.Some? ==> Sigma.Bucketed(engine.value)
    requires Good(st, limit)
    ensures var st' := Step(st, ev, limit, engine, ignoreCase);
            && Good(st', limit)
            && (st'.out == st.out || (|st'.out| == |st.out| + 1 && st'.out[..|st.out|] == st.out
                                     && Marked(st'.out[|st.out|], ev)))
            && (!IsBulk(Classify(ev)) ==> st'.out == st.out + [ev])
            && NonBulk(st'.out) == NonBulk(st.out) + (if IsBulk(Classify(ev)) then [] else [ev])
            && (Admits(st, Classify(ev), limit) ==> st'.out == st.out + [Annotate(ev, Detect(engine, ev, ignoreCase))])
            && (!Admits(st, Classify(ev), limit) ==> st' == st)
            && (Admits(st, Classify(ev), limit) <==> !IsBulk(Classify(ev)) || (|st.out| < limit && BulkCount(st, Classify(ev)) < Share(limit)))
  {
    if Admits(st, Classify(ev), limit) {
      var a := Annotate(ev, Detect(engine, ev, ignoreCase));
      StepAdmitted(st, ev, limit, engine, ignoreCase);
      assert (st.out + [a])[..|st.out|] == st.out;
    } else {
      StepRefused(st, ev, limit, engine, ignoreCase);
    }
  }

  /** `StepKeeps` for an event the writer takes: it is appended, marked, and
      unmarked when it is not a bulk event. */
  lemma StepAdmitted(st: WriterState, ev: TimelineEvent, limit: nat, engine: Option<Sigma.Engine>, ignoreCase: bool)
    requires engine.Some? ==> Sigma.Bucketed(engine.value)
    requires Good(st, limit) && Admits(st, Classify(ev), limit)
    ensures var a := Annotate(ev, Detect(engine, ev, ignoreCase));
            var st' := Step(st, ev, limit, engine, ignoreCase);
            && st'.out == st.out + [a]
            && Good(st', limit)
            && Marked(a, ev)
            && (!IsBulk(Classify(ev)) ==> a == ev)
            && NonBulk(st'.out) == NonBulk(st.out) + (if IsBulk(Classify(ev)) then [] else [ev])
  {
    var a := Annotate(ev, Detect(engine, ev, ignoreCase));
    AnnotateKeepsCategory(ev, Detect(engine, ev, ignoreCase));
    CountAppend(st.out, a, OtherCat);
    AdmittedCounts(st, a, limit);
    assert Step(st, ev, limit, engine, ignoreCase) == Appended(st, a);
  }

  /** The counters of the state after appending an admitted event `a` still
      count the written events within their bounds. */
  lemma AdmittedCounts(st: WriterState, a: TimelineEvent, limit: nat)
    requires Good(st, limit) && Admits(st, Classify(a), limit)
    ensures Good(Appended(st, a), limit)
  {
    CountAppend(st.out, a, EventLogCat);
    CountAppend(st.out, a, RegistryCat);
    CountAppend(st.out, a, PrefetchCat);
    CountBulkAtMostLength(st.out);
  }

  /** `StepKeeps` for an event the writer refuses: a bulk one, and nothing changes. */
  lemma StepRefused(st: WriterState, ev: TimelineEvent, limit: nat, engine: Option<Sigma.Engine>, ignoreCase: bool)
    requires engine.Some? ==> Sigma.Bucketed(engine.value)
    requires Good(st, limit) && !Admits(st, Classify(ev), limit)
    ensures Step(st, ev, limit, engine, ignoreCase) == st
    ensures IsBulk(Classify(ev))
  {
  }

  /** The writer over all received events, in order. */
  function Write(events: seq<TimelineEvent>, limit: nat, engine: Option<Sigma.Engine>, ignoreCase: bool)
    : (st: WriterState)
    requires engine.Some? ==> Sigma.Bucketed(engine.value)
    ensures Good(st, limit)
    ensures NonBulk(st.out) == NonBulk(events)
    ensures MarkedSubseq(st.out, events)
  {
    if |events| == 0 then Start
    else
      var prev := events[..|events| - 1];
      var ev := events[|events| - 1];
      var st0 := Write(prev, limit, engine, ignoreCase);
      StepKeeps(st0, ev, limit, engine, ignoreCase);
      CountAppend(prev, ev, OtherCat);
      assert events == prev + [ev];
      Step(st0, ev, limit, engine, ignoreCase)
  }

  /** Bulk events written never exceed the limit, nor a category its 60%
      share; when that share is not positive no bulk event is written. */
  lemma QuotaBounds(events: seq<TimelineEvent>, limit: nat, engine: Option<Sigma.Engine>, ignoreCase: bool)
    requires engine.Some? ==> Sigma.Bucketed(engine.value)
    ensures var out := Write(events, limit, engine, ignoreCase).out;
            && CountBulk(out) <= limit
            && (limit * 6 <= MaxInt64 ==>
                  && CountCat(out, EventLogCat) <= limit * 6 / 10
                  && CountCat(out, RegistryCat) <= limit * 6 / 10
                  && CountCat(out, PrefetchCat) <= limit * 6 / 10)
            && (Share(limit) <= 0 ==> CountBulk(out) == 0)
  {
  }

  /** With `max_events` at 2 * 10^18 the share wraps to a negative number and
      every bulk event is dropped. */
  lemma LargeLimitDropsAllBulk(events: seq<TimelineEvent>, engine: Option<Sigma.Engine>, ignoreCase: bool)
    requires engine.Some? ==> Sigma.Bucketed(engine.value)
    ensures CountBulk(Write(events, 2000000000000000000, engine, ignoreCase).out) == 0
  {
    LargeLimitShareIsNegative();
    QuotaBounds(events, 2000000000000000000, engine, ignoreCase);
  }

  /** With a limit of 1 the share is 0, so no bulk event is written at all. */
  lemma LimitOneAdmitsNoBulk(events: seq<TimelineEvent>, engine: Option<Sigma.Engine>, ignoreCase: bool)
    requires engine.Some? ==> Sigma.Bucketed(engine.value)
    ensures CountBulk(Write(events, 1, engine, ignoreCase).out) == 0
  {
  }

  // ---------------------------------------------------------------------
  // The fairness scenario of tools/verify_logic

  function SourceEvent(source: string): TimelineEvent {
    NewEvent("", ZeroTime, source, "", "", "", map[], PathRef(""))
  }

  lemma ScenarioCategories()
    ensures Classify(SourceEvent("EventLog")) == EventLogCat
    ensures Classify(SourceEvent("Registry")) == RegistryCat
    ensures Classify(SourceEvent("Network")) == OtherCat
  {
    assert Lower("Registry")[0] != Lower("EventLog")[0];
    assert |Lower("Network")| != |Lower("EventLog")|;
    assert |Lower("Network")| != |Lower("Prefetch")|;
  }

  /** The counters after one step without a detection engine. */
  lemma StepCounts(st: WriterState, ev: TimelineEvent, limit: nat, ignoreCase: bool)
    ensures var st' := Step(st, ev, limit, None, ignoreCase);
            && (!Admits(st, Classify(ev), limit) ==> st' == st)
            && (Admits(st, Classify(ev), limit) ==>
                  && st'.out == st.out + [ev] && st'.written == st.written + 1
                  && st'.eventLog == st.eventLog + (if Classify(ev) == EventLogCat then 1 else 0)
                  && st'.registry == st.registry + (if Classify(ev) == RegistryCat then 1 else 0))
  {
  }

  /** Writing one more event is one more step of the loop. */
  lemma WriteSnoc(es: seq<TimelineEvent>, k: nat, limit: nat, engine: Option<Sigma.Engine>, ignoreCase: bool)
    requires k < |es| && (engine.Some? ==> Sigma.Bucketed(engine.value))
    ensures Write(es[..k + 1], limit, engine, ignoreCase)
            == Step(Write(es[..k], limit, engine, ignoreCase), es[k], limit, engine, ignoreCase)
  {
    assert es[..k + 1][..k] == es[..k];
  }

  /** The category of the k-th scenario event. */
  function ScenarioCategory(k: nat): Category {
    if k < 8 then EventLogCat else if k < 11 then RegistryCat else OtherCat
  }

  /** The writer's counters after the first k scenario events. */
  predicate ScenarioCounts(st: WriterState, k: nat) {
    && (k <= 8 ==> st.written == st.eventLog == (if k <= 6 then k else 6) && st.registry == 0)
    && (8 <= k <= 11 ==> st.written == 6 + (k - 8) && st.eventLog == 6 && st.registry == k - 8)
    && (11 <= k ==> st.written == 9 + (k - 11) && st.eventLog == 6 && st.registry == 3)
    && CountCat(st.out, OtherCat) == (if k <= 11 then 0 else k - 11)
  }

  lemma ScenarioStep(st: WriterState, k: nat, ev: TimelineEvent, ignoreCase: bool)
    requires k < 13 && ScenarioCounts(st, k) && Classify(ev) == ScenarioCategory(k)
    ensures ScenarioCounts(Step(st, ev, 10, None, ignoreCase), k + 1)
  {
    assert Share(10) == 6;
    StepCounts(st, ev, 10, ignoreCase);
    CountAppend(st.out, ev, OtherCat);
  }

  /** The events of the scenario: eight from the event log, three from the
      registry and two from the network. */
  const ScenarioEvents: seq<TimelineEvent> :=
    seq(8, _ => SourceEvent("EventLog")) + seq(3, _ => SourceEvent("Registry")) + seq(2, _ => SourceEvent("Network"))

  lemma ScenarioEventCategory(k: nat)
    requires k < 13
    ensures |ScenarioEvents| == 13
    ensures Classify(ScenarioEvents[k]) == ScenarioCategory(k)
  {
    ScenarioCategories();
    if k < 8 {
      assert ScenarioEvents[k] == SourceEvent("EventLog");
    } else if k < 11 {
      assert ScenarioEvents[k] == SourceEvent("Registry");
    } else {
      assert ScenarioEvents[k] == SourceEvent("Network");
    }
  }

  /** Under a limit of 10, six of the eight event-log events pass the 60%
      share, and all registry and network events are written. */
  lemma FairnessScenario(ignoreCase: bool)
    ensures var st := Write(ScenarioEvents, 10, None, ignoreCase);
            CountCat(st.out, EventLogCat) == 6 && CountCat(st.out, RegistryCat) == 3
            && CountCat(st.out, OtherCat) == 2 && |st.out| == 11
  {
    ScenarioEventCategory(0);
    ScenarioPrefix(13, ignoreCase);
    assert ScenarioEvents[..13] == ScenarioEvents;
    ScenarioFinal(Write(ScenarioEvents, 10, None, ignoreCase));
  }

  /** The counters after each prefix of the scenario. */
  lemma {:induction false} ScenarioPrefix(k: nat, ignoreCase: bool)
    requires k <= 13
    ensures |ScenarioEvents| == 13
    ensures ScenarioCounts(Write(ScenarioEvents[..k], 10, None, ignoreCase), k)
  {
    ScenarioEventCategory(0);
    if k > 0 {
      var es := ScenarioEvents;
      ScenarioPrefix(k - 1, ignoreCase);
      ScenarioEventCategory(k - 1);
      WriteSnoc(es, k - 1, 10, None, ignoreCase);
      ScenarioStep(Write(es[..k - 1], 10, None, ignoreCase), k - 1, es[k - 1], ignoreCase);
    } else {
      assert ScenarioEvents[..0] == [];
    }
  }

  lemma ScenarioFinal(st: WriterState)
    requires Good(st, 10) && ScenarioCounts(st, 13)
    ensures CountCat(st.out, EventLogCat) == 6 && CountCat(st.out, RegistryCat) == 3
    ensures CountCat(st.out, OtherCat) == 2 && |st.out| == 11
  {
  }
}
