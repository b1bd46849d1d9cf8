/** The file-backed case store (internal/storage/file_store.go): the case
    path, the line framing of the timeline file, and the timeline search
    over its lines.  The file system is outside this model: a file is its
    content (or None when it does not exist), and JSON decoding of a line
    is a parameter. */
module FileStore {
  import opened Wrappers
  import opened GoStr
  import opened Model
  import opened Seqs

  datatype FileStorage = FileStorage(casePath: string)

  /** `NewFileStorage`: a store needs a case path. */
  function NewFileStorage(casePath: string): (r: Result<FileStorage>)
    ensures casePath == "" <==> r.Err?
    ensures r.Err? ==> r.msg == "case path required"
    ensures r.Ok? ==> r.value.casePath == casePath
  {
    if casePath == "" then Err("case path required") else Ok(FileStorage(casePath))
  }

  /** `InitCase`: an empty path keeps the current case; any other path
      becomes the case path. */
  function InitCase(st: FileStorage, casePath: string): (r: FileStorage)
    ensures casePath == "" ==> r == st
    ensures casePath != "" ==> r.casePath == casePath
  {
    if casePath != "" && casePath != st.casePath then FileStorage(casePath) else st
  }

  /** Opening a case twice is the same as opening it once. */
  lemma InitCaseIdempotent(st: FileStorage, casePath: string)
    ensures InitCase(InitCase(st, casePath), casePath) == InitCase(st, casePath)
  {
  }

  // ---------------------------------------------------------------------
  // Line framing

  /** The content of a stream file after writing the given encoded records:
      the file is truncated when opened, and each record is followed by a
      newline. */
  function StreamFile(records: seq<string>): (r: string)
    ensures |records| > 0 ==> |r| > 0 && r[|r| - 1] == '\n'
  {
    if |records| == 0 then "" else StreamFile(records[..|records| - 1]) + records[|records| - 1] + "\n"
  }

  function DropCR(line: string): (r: string)
    ensures HasSuffix(line, "\r") ==> line == r + "\r"
    ensures !HasSuffix(line, "\r") ==> r == line
  {
    if |line| > 0 && line[|line| - 1] == '\r' then line[..|line| - 1] else line
  }

  /** The lines `bufio.Scanner` yields: the text between newlines, each
      without a final carriage return, and a last unterminated line when
      the content does not end in a newline. */
  function Lines(content: string): (r: seq<string>)
    ensures forall i :: 0 <= i < |r| ==> '\n' !in r[i]
    decreases |content|
  {
    if |content| == 0 then []
    else
      var i := IndexOf(content, '\n');
      if i == -1 then [DropCR(content)]
      else [DropCR(content[..i])] + Lines(content[i + 1..])
  }

  /** An encoded record: one line without newline or final carriage
      return, as `json.Marshal` writes it. */
  predicate IsRecord(s: string) {
    '\n' !in s && !HasSuffix(s, "\r")
  }

  lemma LinesCons(r: string, rest: string)
    requires IsRecord(r)
    ensures Lines(r + "\n" + rest) == [r] + Lines(rest)
  {
    var c := r + "\n" + rest;
    var i := IndexOf(c, '\n');
    assert c[|r|] == '\n';
    assert c[..|r|] == r;
    assert forall k :: 0 <= k < |r| ==> c[k] == r[k];
    assert i == |r|;
    assert c[i + 1..] == rest;
  }

  function Concat(records: seq<string>): string {
    if |records| == 0 then "" else records[0] + "\n" + Concat(records[1..])
  }

  lemma {:induction false} StreamFileIsConcat(records: seq<string>)
    ensures StreamFile(records) == Concat(records)
  {
    if |records| > 0 {
      var init := records[..|records| - 1];
      StreamFileIsConcat(init);
      ConcatSnoc(init, records[|records| - 1]);
      assert init + [records[|records| - 1]] == records;
    }
  }

  lemma {:induction false} ConcatSnoc(records: seq<string>, r: string)
    ensures Concat(records + [r]) == Concat(records) + r + "\n"
  {
    if |records| > 0 {
      assert (records + [r])[1..] == records[1..] + [r];
      ConcatSnoc(records[1..], r);
    } else {
      assert records + [r] == [r];
    }
  }

  lemma {:induction false} LinesOfConcat(records: seq<string>)
    requires forall i :: 0 <= i < |records| ==> IsRecord(records[i])
    ensures Lines(Concat(records)) == records
  {
    if |records| > 0 {
      LinesOfConcat(records[1..]);
      LinesCons(records[0], Concat(records[1..]));
    }
  }

  /** Reading a stream file back line by line gives the records written. */
  lemma StreamRoundTrip(records: seq<string>)
    requires forall i :: 0 <= i < |records| ==> IsRecord(records[i])
    ensures Lines(StreamFile(records)) == records
  {
    StreamFileIsConcat(records);
    LinesOfConcat(records);
  }

  /** `CountTimelineEvents`: the number of lines of the timeline file, or
      an error when it cannot be opened. */
  function CountTimelineEvents(timeline: Option<string>): (r: Result<nat>)
    ensures timeline.None? ==> r.Err?
    ensures timeline.Some? ==> r == Ok(|Lines(timeline.value)|)
  {
    match timeline
    case None => Err("open timeline.jsonl")
    case Some(content) => Ok(|Lines(content)|)
  }

  /** The count of a stream file is the number of events written to it. */
  lemma CountAfterStream(records: seq<string>)
    requires forall i :: 0 <= i < |records| ==> IsRecord(records[i])
    ensures CountTimelineEvents(Some(StreamFile(records))) == Ok(|records|)
  {
    StreamRoundTrip(records);
  }

  // ---------------------------------------------------------------------
  // Timeline search

  /** What a filter asks for, after the search term is trimmed and an
      `eid:`/`id:` prefix (in any case) has selected event-ID mode. */
  datatype Query = Query(
    eventId: string,       // "" when not in event-ID mode
    term: string,          // lower-cased term; "" when none or in event-ID mode
    artifact: string,
    source: string,
    timeStart: Option<Instant>,
    timeEnd: Option<Instant>)

  function QueryOf(filter: TimelineFilter): (q: Query)
    ensures var low := Lower(TrimSpace(filter.searchTerm));
            && (HasPrefix(low, "eid:") ==> q.eventId == low[4..] && q.term == "")
            && (!HasPrefix(low, "eid:") && HasPrefix(low, "id:") ==> q.eventId == low[3..] && q.term == "")
            && (!HasPrefix(low, "eid:") && !HasPrefix(low, "id:") ==> q.eventId == "" && q.term == low)
  {
    var low := Lower(TrimSpace(filter.searchTerm));
    var eid := if HasPrefix(low, "eid:") then TrimPrefix(low, "eid:")
               else if HasPrefix(low, "id:") then TrimPrefix(low, "id:")
               else "";
    var term := if HasPrefix(low, "eid:") || HasPrefix(low, "id:") then "" else low;
    Query(eid, term, filter.artifact, filter.source, filter.timeStart, filter.timeEnd)
  }

  /** The cheap test on the raw line before decoding. */
  predicate LineCandidate(q: Query, line: string) {
    if q.eventId != "" then Contains(Lower(line), q.eventId)
    else q.term == "" || Contains(Lower(line), q.term)
  }

  /** The tests on the decoded event. */
  predicate EventMatches(q: Query, ev: TimelineEvent) {
    && (q.eventId != "" ==> "EventID" in ev.details && ev.details["EventID"] == q.eventId)
    && (q.artifact == "" || ev.artifact == q.artifact)
    && (q.source == "" || EqualFold(ev.source, q.source))
    && (q.timeStart.None? || !Before(ev.time, q.timeStart.value))
    && (q.timeEnd.None? || !After(ev.time, q.timeEnd.value))
  }

  /** The event a line contributes, if it passes every test. */
  function Hit(q: Query, decode: string -> Option<TimelineEvent>, line: string): (r: Option<TimelineEvent>)
    ensures r.Some? <==> LineCandidate(q, line) && decode(line).Some? && EventMatches(q, decode(line).value)
    ensures r.Some? ==> r.value == decode(line).value
  {
    if !LineCandidate(q, line) then None
    else match decode(line)
      case None => None
      case Some(ev) => if EventMatches(q, ev) then Some(ev) else None
  }

  /** All matching events, in file order. */
  function Hits(q: Query, decode: string -> Option<TimelineEvent>, lines: seq<string>): seq<TimelineEvent> {
    FilterMap(lines, HitFn(q, decode))
  }

  /** `Hit` for one query, as a function of the line. */
  function HitFn(q: Query, decode: string -> Option<TimelineEvent>): string -> Option<TimelineEvent> {
    line => Hit(q, decode, line)
  }

  function PageNumber(filter: TimelineFilter): (p: int)
    ensures p >= 1
  {
    if filter.page < 1 then 1 else filter.page
  }

  function PageSize(filter: TimelineFilter): (n: int)
    ensures n >= 1
  {
    if filter.pageSize < 1 then 100 else filter.pageSize
  }

  function Offset(filter: TimelineFilter): (o: nat) {
    (PageNumber(filter) - 1) * PageSize(filter)
  }

  /** The requested page of a sequence of hits. */
  function Page<T>(hits: seq<T>, offset: nat, size: nat): (r: seq<T>)
    ensures |r| <= size
    ensures offset >= |hits| ==> r == []
    ensures offset < |hits| ==> r == hits[offset..if offset + size <= |hits| then offset + size else |hits|]
  {
    if offset >= |hits| then []
    else if offset + size <= |hits| then hits[offset..offset + size]
    else hits[offset..]
  }

  /** What `SearchTimeline` returns for a filter and the lines of the
      timeline file (None when the file does not exist). */
  function SearchSpec(filter: Option<TimelineFilter>, timeline: Option<seq<string>>,
                      decode: string -> Option<TimelineEvent>): (r: Result<seq<TimelineEvent>>)
    ensures filter.None? <==> r.Err?
    ensures filter.Some? && timeline.None? ==> r == Ok([])
    ensures r.Ok? ==> |r.value| <= PageSize(filter.value)
  {
    match filter
    case None => Err("filter required")
    case Some(f) =>
      match timeline
      case None => Ok([])
      case Some(lines) => Ok(Page(Hits(QueryOf(f), decode, lines), Offset(f), PageSize(f)))
  }

  /** `SearchTimeline`: no filter is an error, a missing timeline file an
      empty result, and otherwise the page of matching lines. */
  method SearchTimeline(filter: Option<TimelineFilter>, timeline: Option<seq<string>>,
                        decode: string -> Option<TimelineEvent>) returns (r: Result<seq<TimelineEvent>>)
    ensures r == SearchSpec(filter, timeline, decode)
  {
    if filter.None? {
      return Err("filter required");
    }
    if timeline.None? {
      return Ok([]);
    }
    var f := filter.value;
    var events := ScanPage(timeline.value, HitFn(QueryOf(f), decode), Offset(f), PageSize(f));
    return Ok(events);
  }

  /** The scanning loop: it counts hits to skip, collects the page, and
      stops as soon as the page is full. */
  method ScanPage<T>(lines: seq<string>, hit: string -> Option<T>, offset: nat, size: nat)
    returns (events: seq<T>)
    requires size >= 1
    ensures events == Page(FilterMap(lines, hit), offset, size)
  {
    events := [];
    var skipped := 0;
    var i := 0;
    while i < |lines|
      invariant 0 <= i <= |lines|
      invariant skipped == (if |FilterMap(lines[..i], hit)| < offset then |FilterMap(lines[..i], hit)| else offset)
      invariant events == Page(FilterMap(lines[..i], hit), offset, size)
      invariant |events| < size
    {
      PrefixSnoc(lines, i, hit);
      var h := hit(lines[i]);
      if h.Some? {
        PageSnoc(FilterMap(lines[..i], hit), h.value, offset, size);
      }
      i := i + 1;
      if h.Some? {
        if skipped < offset {
          skipped := skipped + 1;
        } else {
          events := events + [h.value];
          if |events| >= size {
            PageIsFull(lines, i, hit, offset, size);
            return;
          }
        }
      }
    }
    assert lines[..i] == lines;
  }

  lemma PrefixSnoc<T, U>(xs: seq<T>, i: nat, f: T -> Option<U>)
    requires i < |xs|
    ensures FilterMap(xs[..i + 1], f) == FilterMap(xs[..i], f) + (if f(xs[i]).Some? then [f(xs[i]).value] else [])
  {
    assert xs[..i + 1] == xs[..i] + [xs[i]];
    FilterMapSnoc(xs[..i], xs[i], f);
  }

  lemma PageSnoc<T>(hs: seq<T>, x: T, offset: nat, size: nat)
    requires |Page(hs, offset, size)| < size
    ensures |hs| < offset ==> Page(hs + [x], offset, size) == []
    ensures |hs| >= offset ==> Page(hs + [x], offset, size) == Page(hs, offset, size) + [x]
  {
    if |hs| >= offset {
      assert (hs + [x])[offset..] == hs[offset..] + [x];
    }
  }

  /** Once a page is full, later lines cannot change it. */
  lemma PageIsFull<T>(lines: seq<string>, i: nat, hit: string -> Option<T>, offset: nat, size: nat)
    requires i <= |lines|
    requires |Page(FilterMap(lines[..i], hit), offset, size)| >= size
    ensures Page(FilterMap(lines, hit), offset, size) == Page(FilterMap(lines[..i], hit), offset, size)
  {
    var a := FilterMap(lines[..i], hit);
    var b := FilterMap(lines[i..], hit);
    FilterMapAppend(lines[..i], lines[i..], hit);
    assert lines[..i] + lines[i..] == lines;
    PageOfLonger(a, b, offset, size);
  }

  /** A full page of `a` is also the page of any extension of `a`. */
  lemma PageOfLonger<T>(a: seq<T>, b: seq<T>, offset: nat, size: nat)
    requires |Page(a, offset, size)| >= size
    ensures Page(a + b, offset, size) == Page(a, offset, size)
  {
    if size > 0 {
      assert offset < |a| && offset + size <= |a|;
      assert (a + b)[offset..offset + size] == a[offset..offset + size];
    }
  }

  /** The host, user, IOC and result-count fields of a filter play no part
      in the search. */
  lemma SearchIgnoresUnusedFields(f: TimelineFilter, timeline: Option<seq<string>>,
                                  decode: string -> Option<TimelineEvent>,
                                  host: string, user: string, ioc: string, maxResults: int)
    ensures SearchSpec(Some(f.(host := host, user := user, ioc := ioc, maxResults := maxResults)), timeline, decode)
            == SearchSpec(Some(f), timeline, decode)
  {
    var g := f.(host := host, user := user, ioc := ioc, maxResults := maxResults);
    SameQuery(f, g);
    assert Offset(g) == Offset(f) && PageSize(g) == PageSize(f);
  }

  lemma SameQuery(f: TimelineFilter, g: TimelineFilter)
    requires g.searchTerm == f.searchTerm && g.artifact == f.artifact && g.source == f.source
    requires g.timeStart == f.timeStart && g.timeEnd == f.timeEnd
    ensures QueryOf(g) == QueryOf(f)
  {
  }

  /** Consecutive pages of the same size tile the hits: page p + 1 starts
      where page p ends. */
  lemma PagesTile<T>(hits: seq<T>, p: nat, size: nat)
    requires size >= 1 && (p + 1) * size <= |hits|
    ensures Page(hits, 0, (p + 1) * size) == Page(hits, 0, p * size) + Page(hits, p * size, size)
  {
    assert (p + 1) * size == p * size + size;
    assert hits[0..p * size + size] == hits[0..p * size] + hits[p * size..p * size + size];
  }

  /** A bare `eid:` leaves no ID to look for and turns off the term, so
      every line that decodes is a candidate. */
  lemma BareEidPrefixMatchesAll(f: TimelineFilter, line: string)
    requires TrimSpace(f.searchTerm) == "eid:"
    ensures QueryOf(f).eventId == "" && QueryOf(f).term == ""
    ensures LineCandidate(QueryOf(f), line)
  {
    assert Lower("eid:") == "eid:";
  }
}
