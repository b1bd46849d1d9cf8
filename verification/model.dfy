/** The records gtrace passes between its parsers, the writer, storage and the
    analyzers (pkg/model/types.go and pkg/pluginsdk/manifest.go).

    Time is an `Instant`: whole Unix seconds plus nanoseconds in UTC, which is
    how Go's `time.Time` behaves once `.UTC()` has been applied. */
module Model {
  import opened Wrappers
  import opened GoStr

  const NanosPerSecond: int := 1_000_000_000

  datatype Instant = Instant(sec: int, nsec: int) {
    predicate Valid() {
      0 <= nsec < NanosPerSecond
    }

    /** Nanoseconds since the Unix epoch, unbounded. */
    function Nanos(): int {
      sec * NanosPerSecond + nsec
    }
  }

  /** Go's `time.Time{}`: 0001-01-01T00:00:00Z. */
  const ZeroTime: Instant := Instant(-62135596800, 0)

  /** The Unix epoch, 1970-01-01T00:00:00Z. */
  const UnixEpoch: Instant := Instant(0, 0)

  predicate IsZero(t: Instant) {
    t == ZeroTime
  }

  /** `time.Unix(sec, nsec)`: a nanosecond count outside [0, 1e9) is carried
      into the seconds, so the result always has a valid nanosecond part and
      denotes the same moment. */
  function Unix(sec: int, nsec: int): (t: Instant)
    ensures t.Valid()
    ensures t.Nanos() == sec * NanosPerSecond + nsec
  {
    Instant(sec + nsec / NanosPerSecond, nsec % NanosPerSecond)
  }

  predicate Before(a: Instant, b: Instant) {
    a.sec < b.sec || (a.sec == b.sec && a.nsec < b.nsec)
  }

  predicate After(a: Instant, b: Instant) {
    Before(b, a)
  }

  /** Two's-complement reduction of an integer into the int64 range. */
  function Wrap64(x: int): (r: int)
    ensures InInt64(r)
    ensures InInt64(x) ==> r == x
    ensures (r - x) % 0x1_0000_0000_0000_0000 == 0
  {
    (x - MinInt64) % 0x1_0000_0000_0000_0000 + MinInt64
  }

  /** `t.UnixNano()`, which wraps in int64 far from the present. */
  function UnixNano(t: Instant): int {
    Wrap64(t.Nanos())
  }

  /** `t.AddDate(0, 0, days)` for a UTC instant. */
  function AddDays(t: Instant, days: int): Instant {
    Instant(t.sec + days * 86400, t.nsec)
  }

  datatype EvidenceRef = EvidenceRef(sourcePath: string, sha256: string)

  /** Evidence that only names the file it came from. */
  function PathRef(path: string): EvidenceRef {
    EvidenceRef(path, "")
  }

  type Details = map<string, string>

  /** `Details[key]` in Go: the empty string for a missing key. */
  function Detail(d: Details, key: string): (r: string)
    ensures key in d ==> r == d[key]
    ensures key !in d ==> r == ""
  {
    if key in d then d[key] else ""
  }

  datatype TimelineEvent = TimelineEvent(
    id: string,
    time: Instant,
    source: string,
    artifact: string,
    action: string,
    subject: string,
    details: Details,
    evidence: EvidenceRef,
    iocHits: seq<string>)

  /** A freshly parsed event: no IOC hits yet. */
  function NewEvent(id: string, time: Instant, source: string, artifact: string, action: string,
                    subject: string, details: Details, evidence: EvidenceRef): TimelineEvent
  {
    TimelineEvent(id, time, source, artifact, action, subject, details, evidence, [])
  }

  datatype Artifact = Artifact(
    id: string,
    kind: string,
    path: string,
    created: Option<Instant>,
    modified: Option<Instant>,
    metadata: map<string, string>,
    evidence: EvidenceRef)

  datatype Finding = Finding(
    id: string,
    severity: string,
    title: string,
    description: string,
    ruleId: string,
    evidenceRefs: seq<EvidenceRef>)

  datatype IocMaterial = IocMaterial(kind: string, value: string, note: string)

  datatype TimelineFilter = TimelineFilter(
    host: string,
    user: string,
    artifact: string,
    ioc: string,
    timeStart: Option<Instant>,
    timeEnd: Option<Instant>,
    maxResults: int,
    searchTerm: string,
    page: int,
    pageSize: int,
    source: string)

  datatype ParseResponse = ParseResponse(artifacts: seq<Artifact>, events: seq<TimelineEvent>)

  const EmptyResponse: ParseResponse := ParseResponse([], [])

  /** A response whose only content is the given events. */
  function EventsResponse(events: seq<TimelineEvent>): ParseResponse {
    ParseResponse([], events)
  }
}
