/** The Prefetch parser (internal/plugin/prefetch.go).  Decoding the
    prefetch file itself, MAM decompression included, is done by a library
    outside this model; its result is an input here. */
module Prefetch {
  import opened Wrappers
  import opened GoStr
  import opened Model

  /** What the prefetch library reports about one file. */
  datatype PfInfo = PfInfo(
    executable: string,
    lastRunTimes: seq<Instant>,
    runCount: int,
    version: string,
    hash: string,
    filesAccessed: seq<string>)

  /** Where the parser's events go: returned in the response, or handed to
      the stream callback one by one while the response stays empty. */
  datatype Delivery = Delivery(response: ParseResponse, streamed: seq<TimelineEvent>)

  /** Events delivered by either route. */
  function Delivered(d: Delivery): seq<TimelineEvent> {
    d.streamed + d.response.events
  }

  /** An 8-byte minimum, then the "SCCA" signature, the "MAM" signature of a
      compressed file, or a ".pf" name. */
  predicate CanParse(name: string, header: seq<Byte>) {
    && |header| >= 8
    && (AsString(header[..4]) == "SCCA" || AsString(header[..3]) == "MAM" || HasSuffix(Lower(name), ".pf"))
  }

  /** A header shorter than 8 bytes is refused whatever the name says. */
  lemma ShortHeaderRejected(name: string, header: seq<Byte>)
    requires |header| < 8
    ensures !CanParse(name, header)
  {
  }

  /** A header that starts with neither signature (for instance a version
      number in bytes 0-3 and "SCCA" only at bytes 4-7) is accepted exactly
      when the name ends in ".pf". */
  lemma UnsignedHeaderNeedsName(name: string, header: seq<Byte>)
    requires |header| >= 8 && header[0] != 'S' as int && header[0] != 'M' as int
    ensures CanParse(name, header) <==> HasSuffix(Lower(name), ".pf")
  {
    assert AsString(header[..4])[0] != 'S';
    assert AsString(header[..3])[0] != 'M';
  }

  /** The layout of a version-30 file with the signature after the version:
      byte 0 is 30 and "SCCA" occupies bytes 4-7. */
  predicate VersionFirstLayout(header: seq<Byte>) {
    && |header| >= 8 && header[0] == 30
    && header[4] == 'S' as int && header[5] == 'C' as int && header[6] == 'C' as int && header[7] == 'A' as int
  }

  lemma VersionFirstAcceptedOnlyByName(name: string, header: seq<Byte>)
    requires VersionFirstLayout(header)
    ensures CanParse(name, header) <==> HasSuffix(Lower(name), ".pf")
  {
    UnsignedHeaderNeedsName(name, header);
  }

  /** The most recent run time, or `now` when the file lists none. */
  function EventTime(info: PfInfo, now: Instant): (t: Instant)
    ensures |info.lastRunTimes| > 0 ==> t == info.lastRunTimes[0]
    ensures |info.lastRunTimes| == 0 ==> t == now
  {
    if |info.lastRunTimes| > 0 then info.lastRunTimes[0] else now
  }

  function PrefetchEvent(info: PfInfo, evidencePath: string, now: Instant): (e: TimelineEvent)
    ensures e.subject == info.executable && e.time == EventTime(info, now)
    ensures e.source == "Prefetch" && e.artifact == "Prefetch" && e.action == "EXECUTION"
    ensures e.details.Keys == {"run_count", "version", "path", "hash", "files_accessed"}
    ensures e.details["path"] == evidencePath && e.evidence == PathRef(evidencePath)
  {
    var t := EventTime(info, now);
    NewEvent("pf-" + info.executable + "-" + Itoa(UnixNano(t)), t, "Prefetch", "Prefetch", "EXECUTION",
             info.executable,
             map["run_count" := Itoa(info.runCount), "version" := info.version, "path" := evidencePath,
                 "hash" := info.hash, "files_accessed" := Itoa(|info.filesAccessed|)],
             PathRef(evidencePath))
  }

  /** The decimal counters in the details read back as the library's
      numbers. */
  lemma CountersReadBack(info: PfInfo, evidencePath: string, now: Instant)
    requires InInt64(info.runCount) && |info.filesAccessed| <= MaxInt64
    ensures Atoi(PrefetchEvent(info, evidencePath, now).details["run_count"]) == Some(info.runCount)
    ensures Atoi(PrefetchEvent(info, evidencePath, now).details["files_accessed"]) == Some(|info.filesAccessed|)
  {
    AtoiItoa(info.runCount);
    AtoiItoa(|info.filesAccessed|);
  }

  /** `Parse` given the library's result (`load`), the current time and
      whether a stream callback is set. */
  function Parse(load: Result<PfInfo>, evidencePath: string, now: Instant, streaming: bool): (r: Result<Delivery>)
    ensures load.Err? ==> r == Err("failed to parse prefetch " + evidencePath + ": " + load.msg)
    ensures load.Ok? ==> r.Ok? && Delivered(r.value) == [PrefetchEvent(load.value, evidencePath, now)]
    ensures r.Ok? && streaming ==> r.value.response == EmptyResponse
    ensures r.Ok? && !streaming ==> r.value.streamed == [] && r.value.response.artifacts == []
  {
    match load
    case Err(e) => Err("failed to parse prefetch " + evidencePath + ": " + e)
    case Ok(info) =>
      var evt := PrefetchEvent(info, evidencePath, now);
      if streaming then Ok(Delivery(EmptyResponse, [evt]))
      else Ok(Delivery(EventsResponse([evt]), []))
  }

  /** The stream and the batch routes deliver the same single event. */
  lemma StreamAndBatchAgree(info: PfInfo, evidencePath: string, now: Instant)
    ensures Parse(Ok(info), evidencePath, now, true).value.streamed
            == Parse(Ok(info), evidencePath, now, false).value.response.events
  {
  }
}
