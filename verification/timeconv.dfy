/** Integer timestamp conversions (internal/plugin/utils.go and
    internal/plugin/browser_windows.go).

    A Windows FILETIME counts 100-nanosecond intervals since
    1601-01-01T00:00:00Z ([MS-DTYP] section 2.3.3); a WebKit timestamp counts
    microseconds since the same moment.  Both are shifted onto the Unix epoch
    by 11644473600 seconds. */
module TimeConv {
  import opened GoStr
  import opened Model

  /** Seconds from 1601-01-01 to 1970-01-01. */
  const EpochDelta: int := 11644473600

  const TicksPerSecond: int := 10_000_000

  const MicrosPerSecond: int := 1_000_000

  /** Unix second of 3001-01-01T00:00:00Z, the first instant whose year exceeds 3000. */
  const Year3001: int := 32535216000

  /** The FILETIME of 3001-01-01T00:00:00Z. */
  const FiletimeYear3001: int := (Year3001 + EpochDelta) * TicksPerSecond

  /** Go's `/` on int64: the quotient truncates toward zero. */
  function GoDiv(a: int, b: int): (q: int)
    requires b > 0
    ensures a >= 0 ==> q == a / b
  {
    if a >= 0 then a / b else -((-a) / b)
  }

  /** Go's `%` on int64: the remainder takes the sign of the dividend. */
  function GoMod(a: int, b: int): (r: int)
    requires b > 0
    ensures GoDiv(a, b) * b + r == a
    ensures -b < r < b
    ensures a >= 0 ==> r == a % b
  {
    a - GoDiv(a, b) * b
  }

  /** The year of `t` is at most 3000. */
  predicate YearAtMost3000(t: Instant) {
    t.sec < Year3001
  }

  /** `windowsFiletimeToGo`: FILETIME ticks to a UTC instant.  Results after
      year 3000 collapse to the zero time; a year before 1601 cannot arise
      from an unsigned count. */
  function FiletimeToTime(ft: nat): (t: Instant)
    requires ft <= MaxUint64
    ensures t.Valid()
    ensures IsZero(t) <==> ft >= FiletimeYear3001
    ensures !IsZero(t) ==> t.Nanos() == ft * 100 - EpochDelta * NanosPerSecond
  {
    var t := Unix(ft / TicksPerSecond - EpochDelta, (ft % TicksPerSecond) * 100);
    if YearAtMost3000(t) then t else ZeroTime
  }

  /** FILETIME ticks of a UTC instant, the inverse direction. */
  function ToFiletime(t: Instant): int {
    (t.sec + EpochDelta) * TicksPerSecond + t.nsec / 100
  }

  /** Every FILETIME up to the year 3000 survives the conversion. */
  lemma FiletimeRoundTrip(ft: nat)
    requires ft < FiletimeYear3001
    ensures ToFiletime(FiletimeToTime(ft)) == ft
  {
  }

  /** Every instant from 1601 to 3000 with a whole number of ticks is the
      image of its own FILETIME. */
  lemma TimeRoundTrip(t: Instant)
    requires t.Valid() && t.nsec % 100 == 0
    requires -EpochDelta <= t.sec < Year3001
    ensures 0 <= ToFiletime(t) < FiletimeYear3001
    ensures FiletimeToTime(ToFiletime(t)) == t
  {
    var ft := ToFiletime(t);
    assert ft / TicksPerSecond == t.sec + EpochDelta;
    assert ft % TicksPerSecond == t.nsec / 100;
  }

  /** FILETIME 0 is 1601-01-01, not the zero time. */
  lemma FiletimeZeroIs1601()
    ensures FiletimeToTime(0) == Instant(-EpochDelta, 0)
    ensures !IsZero(FiletimeToTime(0))
  {
  }

  /** 116444736000000000 ticks is the Unix epoch. */
  lemma FiletimeOfUnixEpoch()
    ensures FiletimeToTime(116444736000000000) == UnixEpoch
  {
  }

  /** WebKit microseconds to a UTC instant, with Go's truncating `/` and `%`
      and `time.Unix` carrying a negative remainder into the seconds. */
  function WebKitToTime(t: int): (r: Instant)
    requires InInt64(t)
    ensures r.Valid()
    ensures r.Nanos() == t * 1000 - EpochDelta * NanosPerSecond
  {
    var s := GoDiv(t, MicrosPerSecond) - EpochDelta;
    var ns := GoMod(t, MicrosPerSecond) * 1000;
    Unix(s, ns)
  }

  /** WebKit microseconds of a UTC instant. */
  function ToWebKit(r: Instant): int {
    (r.sec + EpochDelta) * MicrosPerSecond + r.nsec / 1000
  }

  /** No WebKit timestamp is changed by the conversion, negative ones
      included. */
  lemma WebKitRoundTrip(t: int)
    requires InInt64(t)
    ensures ToWebKit(WebKitToTime(t)) == t
  {
    var r := WebKitToTime(t);
    var m := t * 1000 - EpochDelta * NanosPerSecond;
    assert r.sec == m / NanosPerSecond && r.nsec == m % NanosPerSecond;
    var q := t / MicrosPerSecond;
    var rem := t % MicrosPerSecond;
    assert t == q * MicrosPerSecond + rem;
    assert m == (q - EpochDelta) * NanosPerSecond + rem * 1000;
    assert r.sec == q - EpochDelta && r.nsec == rem * 1000;
  }

  /** For a non-negative timestamp the truncating split is already in range:
      the nanosecond part is the microsecond remainder times 1000. */
  lemma WebKitNonNegative(t: int)
    requires 0 <= t <= MaxInt64
    ensures WebKitToTime(t) == Instant(t / MicrosPerSecond - EpochDelta, (t % MicrosPerSecond) * 1000)
    ensures 0 <= WebKitToTime(t).nsec < NanosPerSecond
  {
  }

  /** 13412599200000000 microseconds is Unix second 1768125600
      (2026-01-11T10:00:00Z). */
  lemma WebKitExample()
    ensures WebKitToTime(13412599200000000) == Instant(1768125600, 0)
  {
  }
}
