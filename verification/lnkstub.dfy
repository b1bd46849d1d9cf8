/** The LNK stub parser (pkg/parsers/lnk_stub.go): it recognises shortcut
    files and returns one artifact and one event of a fixed shape without
    reading the file. */
module LnkStub {
  import opened Wrappers
  import opened GoStr
  import opened Model

  const ArtifactId: string := "lnk-stub-1"
  const EventId: string := "lnk-stub-event-1"

  /** The ShellLinkHeader's HeaderSize field, 0x0000004C little-endian
      (section 2.1 of [MS-SHLLINK]), or a name ending ".lnk" in exactly that
      case and longer than the suffix itself. */
  predicate CanParse(name: string, header: seq<Byte>) {
    || (|header| >= 4 && header[0] == 0x4C && header[1] == 0 && header[2] == 0 && header[3] == 0)
    || (|name| > 4 && name[|name| - 4..] == ".lnk")
  }

  /** The name test is case-sensitive and does not accept the bare suffix. */
  lemma NameTestIsExact(header: seq<Byte>)
    requires |header| < 4
    ensures CanParse("a.lnk", header)
    ensures !CanParse("a.LNK", header)
    ensures !CanParse(".lnk", header)
  {
    assert "a.LNK"[1..] != ".lnk" by { assert "a.LNK"[1..][1] == 'L'; }
  }

  /** The result of `Parse`: its time is `now`, and the evidence carries the
      placeholder hash "stub". */
  function Parse(evidencePath: string, now: Instant): (r: Result<ParseResponse>)
    ensures r.Ok? && |r.value.artifacts| == 1 && |r.value.events| == 1
    ensures r.Ok? ==> r.value.events[0].artifact == r.value.artifacts[0].id == ArtifactId
    ensures r.Ok? ==> r.value.events[0].details == map["note" := "stub event", "path" := evidencePath]
    ensures r.Ok? ==> r.value.events[0].evidence == r.value.artifacts[0].evidence
                      == EvidenceRef(evidencePath, "stub")
    ensures r.Ok? ==> r.value.artifacts[0].path == evidencePath
                      && r.value.artifacts[0].created == r.value.artifacts[0].modified == Some(now)
  {
    var ev := EvidenceRef(evidencePath, "stub");
    var artifact := Artifact(ArtifactId, "lnk", evidencePath, Some(now), Some(now), map[], ev);
    var event := NewEvent(EventId, now, "lnk", artifact.id, "execute", "",
                          map["note" := "stub event", "path" := evidencePath], ev);
    Ok(ParseResponse([artifact], [event]))
  }
}
