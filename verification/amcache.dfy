/** The Amcache parser (internal/plugin/amcache.go): program execution
    evidence from `Amcache.hve`, one event per file entry that records a
    path. */
module Amcache {
  import opened Wrappers
  import opened GoStr
  import opened Model
  import opened Hive
  import opened Seqs

  const NotFound: string := "Amcache File key not found"

  /** `Root\File`, the older layout. */
  const FileKeyPath: seq<string> := ["Root", "File"]

  /** `Root\InventoryApplicationFile`, the newer layout. */
  const InventoryKeyPath: seq<string> := ["Root", "InventoryApplicationFile"]

  predicate CanParse(path: string, header: seq<Byte>) {
    Upper(Base(path)) == "AMCACHE.HVE" && HasRegf(header)
  }

  /** The key the parser reads: `Root\File` if present, else
      `Root\InventoryApplicationFile`. */
  function FileKey(root: Key): (r: Option<Key>)
    ensures OpenKey(root, FileKeyPath).Some? ==> r == OpenKey(root, FileKeyPath)
    ensures OpenKey(root, FileKeyPath).None? ==> r == OpenKey(root, InventoryKeyPath)
  {
    match OpenKey(root, FileKeyPath)
    case Some(k) => Some(k)
    case None => OpenKey(root, InventoryKeyPath)
  }

  /** The decoded text of a value, when decoding succeeded. */
  function DecodedText(v: Value): Option<string> {
    match v.data
    case Some(vd) => if vd.ok then Some(vd.text) else None
    case None => None
  }

  /** Path (value "15") and SHA-1 (value "101", one leading "0000" removed)
      of a file entry, as the value loop leaves them: a later readable value
      of the same name replaces an earlier one. */
  function Fields(vs: seq<Value>, path: string, sha1: string): (r: (string, string))
    ensures (forall i :: 0 <= i < |vs| ==> vs[i].name != "15" || DecodedText(vs[i]).None?) ==> r.0 == path
    ensures (forall i :: 0 <= i < |vs| ==> vs[i].name != "101" || DecodedText(vs[i]).None?) ==> r.1 == sha1
    ensures r.0 == path || exists i :: 0 <= i < |vs| && vs[i].name == "15" && DecodedText(vs[i]) == Some(r.0)
    ensures r.1 == sha1 || exists i :: 0 <= i < |vs| && vs[i].name == "101" && DecodedText(vs[i]).Some?
                                       && r.1 == TrimPrefix(DecodedText(vs[i]).value, "0000")
  {
    if |vs| == 0 then (path, sha1)
    else
      var v := vs[0];
      var p := if v.name == "15" && DecodedText(v).Some? then DecodedText(v).value else path;
      var h := if v.name == "101" && DecodedText(v).Some? then TrimPrefix(DecodedText(v).value, "0000") else sha1;
      var r := Fields(vs[1..], p, h);
      WitnessInTail(vs, (x: Value) => x.name == "15" && DecodedText(x) == Some(r.0));
      WitnessInTail(vs, (x: Value) => x.name == "101" && DecodedText(x).Some?
                                      && r.1 == TrimPrefix(DecodedText(x).value, "0000"));
      r
  }

  /** A value of the tail that satisfies `p` is a value of the whole
      sequence. */
  lemma WitnessInTail(vs: seq<Value>, p: Value -> bool)
    requires |vs| > 0
    ensures (exists i :: 0 <= i < |vs[1..]| && p(vs[1..][i])) ==> exists i :: 1 <= i < |vs| && p(vs[i])
  {
    if exists i :: 0 <= i < |vs[1..]| && p(vs[1..][i]) {
      var i :| 0 <= i < |vs[1..]| && p(vs[1..][i]);
      assert vs[i + 1] == vs[1..][i];
    }
  }

  /** The value loop is a left fold: reading `a` and then `b` is reading
      `b` from the fields `a` leaves. */
  lemma {:induction false} FieldsAppend(a: seq<Value>, b: seq<Value>, path: string, sha1: string)
    ensures var m := Fields(a, path, sha1);
            Fields(a + b, path, sha1) == Fields(b, m.0, m.1)
    decreases |a|
  {
    if |a| > 0 {
      assert (a + b)[0] == a[0];
      assert (a + b)[1..] == a[1..] + b;
      var v := a[0];
      var p := if v.name == "15" && DecodedText(v).Some? then DecodedText(v).value else path;
      var h := if v.name == "101" && DecodedText(v).Some? then TrimPrefix(DecodedText(v).value, "0000") else sha1;
      FieldsAppend(a[1..], b, p, h);
    } else {
      assert a + b == b;
    }
  }

  /** The path is the text of the last value "15" that decodes: later values
      of that name whose data does not decode change nothing. */
  lemma FieldsLastPath(vs: seq<Value>, path: string, sha1: string, i: int)
    requires 0 <= i < |vs| && vs[i].name == "15" && DecodedText(vs[i]).Some?
    requires forall j :: i < j < |vs| ==> vs[j].name != "15" || DecodedText(vs[j]).None?
    ensures Fields(vs, path, sha1).0 == DecodedText(vs[i]).value
  {
    var m := SplitAt(vs, path, sha1, i);
    var rest := vs[i + 1..];
    assert forall k :: 0 <= k < |rest| ==> rest[k] == vs[i + 1 + k];
  }

  /** The SHA-1 is the text of the last value "101" that decodes, with one
      leading "0000" removed. */
  lemma FieldsLastSha1(vs: seq<Value>, path: string, sha1: string, i: int)
    requires 0 <= i < |vs| && vs[i].name == "101" && DecodedText(vs[i]).Some?
    requires forall j :: i < j < |vs| ==> vs[j].name != "101" || DecodedText(vs[j]).None?
    ensures Fields(vs, path, sha1).1 == TrimPrefix(DecodedText(vs[i]).value, "0000")
  {
    var m := SplitAt(vs, path, sha1, i);
    var rest := vs[i + 1..];
    assert forall k :: 0 <= k < |rest| ==> rest[k] == vs[i + 1 + k];
  }

  /** The fields after value `i`, and the rest of the loop from there. */
  lemma SplitAt(vs: seq<Value>, path: string, sha1: string, i: int) returns (m: (string, string))
    requires 0 <= i < |vs|
    ensures m == Fields(vs[..i + 1], path, sha1)
    ensures Fields(vs, path, sha1) == Fields(vs[i + 1..], m.0, m.1)
    ensures vs[i].name == "15" && DecodedText(vs[i]).Some? ==> m.0 == DecodedText(vs[i]).value
    ensures vs[i].name == "101" && DecodedText(vs[i]).Some? ==> m.1 == TrimPrefix(DecodedText(vs[i]).value, "0000")
  {
    m := Fields(vs[..i + 1], path, sha1);
    assert vs == vs[..i + 1] + vs[i + 1..];
    FieldsAppend(vs[..i + 1], vs[i + 1..], path, sha1);
    assert vs[..i + 1] == vs[..i] + [vs[i]];
    FieldsAppend(vs[..i], [vs[i]], path, sha1);
    assert [vs[i]][1..] == [];
  }

  /** The event of one file entry: only entries with a path produce one. */
  function FileEvent(file: Key, evidencePath: string): (r: Option<TimelineEvent>)
    ensures r.Some? <==> Fields(file.values, "", "").0 != ""
    ensures r.Some? ==> r.value.time == file.lastWrite && r.value.source == "amcache"
                        && r.value.action == "EXECUTION_EVIDENCE"
                        && "path" in r.value.details && r.value.details["path"] == r.value.subject != ""
  {
    var (path, sha1) := Fields(file.values, "", "");
    if path == "" then None
    else
      Some(NewEvent("amcache-" + sha1 + "-" + Itoa(UnixNano(file.lastWrite)), file.lastWrite,
                    "amcache", "amcache", "EXECUTION_EVIDENCE", path,
                    map["path" := path, "sha1" := sha1], PathRef(evidencePath)))
  }

  /** The file keys of all volumes: the subkeys of each volume, volume by
      volume. */
  function FileKeys(volumes: seq<Key>): seq<Key> {
    if |volumes| == 0 then [] else volumes[0].subkeys + FileKeys(volumes[1..])
  }

  /** Volume subkeys hold file subkeys; both levels are walked in order, and
      each file key with a path gives its event. */
  function VolumeEvents(volumes: seq<Key>, evidencePath: string): (r: seq<TimelineEvent>)
    ensures forall i :: 0 <= i < |r| ==> r[i].source == "amcache" && r[i].subject != ""
    ensures r == FilterMap(FileKeys(volumes), f => FileEvent(f, evidencePath))
  {
    if |volumes| == 0 then []
    else
      var f := (f: Key) => FileEvent(f, evidencePath);
      FilterMapAppend(volumes[0].subkeys, FileKeys(volumes[1..]), f);
      FilterMap(volumes[0].subkeys, f) + VolumeEvents(volumes[1..], evidencePath)
  }

  function Parse(root: Key, evidencePath: string): (r: Result<ParseResponse>)
    ensures r.Err? <==> OpenKey(root, FileKeyPath).None? && OpenKey(root, InventoryKeyPath).None?
    ensures r.Err? ==> r.msg == NotFound
    ensures r.Ok? ==> forall i :: 0 <= i < |r.value.events| ==> r.value.events[i].source == "amcache"
    ensures r.Ok? ==> FileKey(root).Some?
                      && r.value.events == FilterMap(FileKeys(FileKey(root).value.subkeys), f => FileEvent(f, evidencePath))
  {
    match FileKey(root)
    case None => Err(NotFound)
    case Some(k) => Ok(EventsResponse(VolumeEvents(k.subkeys, evidencePath)))
  }
}
