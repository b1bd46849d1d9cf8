/** IOC tagging (internal/ioc/matcher.go): each event collects, in IOC-list
    order, the value of every indicator that matches one of its details. */
module Ioc {
  import opened GoStr
  import opened Model

  const HashKinds: set<string> := {"hash", "sha256", "md5", "sha1"}

  /** Whether one indicator matches one event.  The kind is compared up to
      letter case; path and domain are case-blind substring tests, the hash
      kinds an exact comparison, ip a case-sensitive substring test, and any
      other kind never matches. */
  predicate Matches(ioc: IocMaterial, ev: TimelineEvent) {
    var kind := Lower(ioc.kind);
    if kind == "path" then Contains(Lower(Detail(ev.details, "path")), Lower(ioc.value))
    else if kind in HashKinds then Detail(ev.details, "hash") == ioc.value
    else if kind == "domain" then Contains(Lower(Detail(ev.details, "domain")), Lower(ioc.value))
    else if kind == "ip" then Contains(Detail(ev.details, "ip"), ioc.value)
    else false
  }

  /** The values of the matching indicators, in list order. */
  function HitValues(ev: TimelineEvent, iocs: seq<IocMaterial>): (r: seq<string>)
    ensures |r| <= |iocs|
    ensures forall v :: v in r ==> exists j :: 0 <= j < |iocs| && Matches(iocs[j], ev) && iocs[j].value == v
    ensures forall j :: 0 <= j < |iocs| && Matches(iocs[j], ev) ==> iocs[j].value in r
  {
    if |iocs| == 0 then []
    else
      var init := HitValues(ev, iocs[..|iocs| - 1]);
      var last := iocs[|iocs| - 1];
      assert forall j :: 0 <= j < |iocs| - 1 ==> iocs[..|iocs| - 1][j] == iocs[j];
      init + (if Matches(last, ev) then [last.value] else [])
  }

  /** One event after tagging: its old hits followed by the new ones. */
  function Tag(ev: TimelineEvent, iocs: seq<IocMaterial>): (r: TimelineEvent)
    ensures r.(iocHits := ev.iocHits) == ev
    ensures |r.iocHits| >= |ev.iocHits| && r.iocHits[..|ev.iocHits|] == ev.iocHits
  {
    ev.(iocHits := ev.iocHits + HitValues(ev, iocs))
  }

  /** `MatchTimeline`: for each event, for each indicator, append the
      indicator's value when it matches. */
  method MatchTimeline(events: seq<TimelineEvent>, iocs: seq<IocMaterial>) returns (r: seq<TimelineEvent>)
    ensures |r| == |events|
    ensures forall i :: 0 <= i < |r| ==> r[i] == Tag(events[i], iocs)
  {
    r := [];
    var i := 0;
    while i < |events|
      invariant 0 <= i <= |events|
      invariant |r| == i
      invariant forall k :: 0 <= k < i ==> r[k] == Tag(events[k], iocs)
    {
      var ev := TagEvent(events[i], iocs);
      r := r + [ev];
      i := i + 1;
    }
  }

  /** The inner loop of `MatchTimeline`, over the indicators for one event. */
  method TagEvent(ev0: TimelineEvent, iocs: seq<IocMaterial>) returns (ev: TimelineEvent)
    ensures ev == Tag(ev0, iocs)
  {
    ev := ev0;
    var j := 0;
    while j < |iocs|
      invariant 0 <= j <= |iocs|
      invariant ev == ev0.(iocHits := ev0.iocHits + HitValues(ev0, iocs[..j]))
    {
      HitValuesSnoc(ev0, iocs, j);
      if Matches(iocs[j], ev) {
        ev := ev.(iocHits := ev.iocHits + [iocs[j].value]);
      }
      j := j + 1;
    }
    assert iocs[..j] == iocs;
  }

  lemma HitValuesSnoc(ev: TimelineEvent, iocs: seq<IocMaterial>, j: nat)
    requires j < |iocs|
    ensures HitValues(ev, iocs[..j + 1]) == HitValues(ev, iocs[..j]) + (if Matches(iocs[j], ev) then [iocs[j].value] else [])
  {
    assert iocs[..j + 1][..j] == iocs[..j];
  }

  /** Matching reads only the details, never the hits already recorded. */
  lemma MatchesIgnoresHits(ioc: IocMaterial, ev: TimelineEvent, hits: seq<string>)
    ensures Matches(ioc, ev.(iocHits := hits)) == Matches(ioc, ev)
  {
  }

  lemma {:induction false} HitValuesIgnoresHits(ev: TimelineEvent, iocs: seq<IocMaterial>, hits: seq<string>)
    ensures HitValues(ev.(iocHits := hits), iocs) == HitValues(ev, iocs)
  {
    if |iocs| > 0 {
      HitValuesIgnoresHits(ev, iocs[..|iocs| - 1], hits);
    }
  }

  lemma {:induction false} HitValuesAppend(ev: TimelineEvent, a: seq<IocMaterial>, b: seq<IocMaterial>)
    ensures HitValues(ev, a + b) == HitValues(ev, a) + HitValues(ev, b)
  {
    if |b| > 0 {
      var init, last := b[..|b| - 1], b[|b| - 1];
      var tail := if Matches(last, ev) then [last.value] else [];
      assert (a + b)[..|a + b| - 1] == a + init;
      assert (a + b)[|a + b| - 1] == last;
      HitValuesAppend(ev, a, init);
      assert HitValues(ev, a + b) == HitValues(ev, a + init) + tail;
      assert HitValues(ev, b) == HitValues(ev, init) + tail;
    } else {
      assert a + b == a;
    }
  }

  /** Tagging with one list and then another is tagging with the two lists
      joined: the hits of the first list come first. */
  lemma TagTwice(ev: TimelineEvent, a: seq<IocMaterial>, b: seq<IocMaterial>)
    ensures Tag(Tag(ev, a), b) == Tag(ev, a + b)
  {
    HitValuesIgnoresHits(ev, b, ev.iocHits + HitValues(ev, a));
    HitValuesAppend(ev, a, b);
  }

  /** The kind is read without regard to letter case. */
  lemma KindIsCaseBlind(ioc: IocMaterial, ev: TimelineEvent, kind: string)
    requires EqualFold(kind, ioc.kind)
    ensures Matches(ioc.(kind := kind), ev) == Matches(ioc, ev)
  {
  }

  /** An empty path, domain or ip indicator matches every event, whether or
      not the event has that detail. */
  lemma EmptyValueMatchesAll(kind: string, ev: TimelineEvent)
    requires Lower(kind) in {"path", "domain", "ip"}
    ensures Matches(IocMaterial(kind, "", ""), ev)
  {
    ContainsEmpty(Lower(Detail(ev.details, "path")));
    ContainsEmpty(Lower(Detail(ev.details, "domain")));
    ContainsEmpty(Detail(ev.details, "ip"));
  }

  /** An empty hash indicator matches exactly the events without a hash (or
      with an empty one). */
  lemma EmptyHashMatchesHashless(ev: TimelineEvent)
    ensures Matches(IocMaterial("sha256", "", ""), ev) <==> ("hash" !in ev.details || ev.details["hash"] == "")
  {
    assert Lower("sha256") == "sha256";
  }

  /** Hashes are compared exactly: a hash in another letter case is no hit,
      while a path in another letter case is. */
  lemma HashCaseMatters()
    ensures !Matches(IocMaterial("md5", "AB", ""), NewEvent("", UnixEpoch, "", "", "", "", map["hash" := "ab"], PathRef("")))
    ensures Matches(IocMaterial("PATH", "AB", ""), NewEvent("", UnixEpoch, "", "", "", "", map["path" := "ab"], PathRef("")))
  {
    assert Lower("md5") == "md5";
    assert Lower("PATH") == "path";
    assert Lower("AB") == "ab" && Lower("ab") == "ab";
    ContainsAt("ab", "ab", 0);
  }

  /** An indicator of an unknown kind adds nothing. */
  lemma UnknownKindNeverMatches(ioc: IocMaterial, ev: TimelineEvent)
    requires Lower(ioc.kind) !in {"path", "domain", "ip", "hash", "sha256", "md5", "sha1"}
    ensures !Matches(ioc, ev)
  {
  }
}
