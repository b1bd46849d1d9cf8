/** The Jump List parser (internal/plugin/jumplist.go): shortcut entries
    stored as streams of an AutomaticDestinations-ms compound file.  The
    compound-file reader and the shell-link reader are outside this model:
    the directory is an input and the two readers are parameters. */
module Jumplist {
  import opened Wrappers
  import opened GoStr
  import opened Model
  import opened Text
  import opened TimeConv
  import opened Seqs

  /** Object type of a stream in a compound-file directory entry
      (section 2.6.1 of [MS-CFB]). */
  const StreamObject: int := 2

  /** Size of a ShellLinkHeader (section 2.1 of [MS-SHLLINK]). */
  const MinLnkSize: int := 76

  type FileTime = x: int | 0 <= x <= 0xFFFF_FFFF_FFFF_FFFF

  /** A compound-file directory entry. */
  datatype DirEntry = DirEntry(mse: int, name: string, modifyTime: FileTime)

  /** The parts of a parsed shell link the parser reads; the string fields
      are kept as the bytes the reader produced. */
  datatype Lnk = Lnk(localBasePath: seq<Byte>, relativePath: seq<Byte>, arguments: seq<Byte>,
                     creationTime: Instant, writeTime: Instant)

  /** The readers and renderers the parser depends on. */
  datatype Env = Env(
    openStream: string -> Option<seq<Byte>>,
    readLnk: seq<Byte> -> Option<Lnk>,
    gb18030: seq<Byte> -> Option<seq<Byte>>,
    render: Instant -> string)

  predicate CanParse(path: string, header: seq<Byte>) {
    HasSuffix(Lower(path), ".automaticdestinations-ms")
  }

  /** The header plays no part in the choice. */
  lemma HeaderIgnored(path: string, h1: seq<Byte>, h2: seq<Byte>)
    ensures CanParse(path, h1) == CanParse(path, h2)
  {
  }

  /** The shortcut's target: the local base path, or the relative path when
      the local base path decodes to nothing; NULs and then white space are
      trimmed off the chosen text. */
  function Target(l: Lnk, gb18030: seq<Byte> -> Option<seq<Byte>>): (r: string)
    ensures BytesToString(l.localBasePath, gb18030) != "" ==>
              r == CleanString(BytesToString(l.localBasePath, gb18030))
    ensures BytesToString(l.localBasePath, gb18030) == "" ==>
              r == CleanString(BytesToString(l.relativePath, gb18030))
    ensures |r| > 0 ==> !IsSpace(r[0]) && !IsSpace(r[|r| - 1])
  {
    var t := BytesToString(l.localBasePath, gb18030);
    var t' := if t == "" then BytesToString(l.relativePath, gb18030) else t;
    CleanString(t')
  }

  /** The fallback happens before trimming: a local base path made of a
      single NUL hides the relative path, and the trimmed target is empty. */
  lemma NulBasePathHidesRelative(l: Lnk, gb18030: seq<Byte> -> Option<seq<Byte>>)
    requires l.localBasePath == [0]
    ensures Target(l, gb18030) == ""
  {
    assert ValidUtf8([0]);
    var s := BytesToString(l.localBasePath, gb18030);
    assert s == "\0";
    assert TrimLeftWhile(s, IsNul) == "";
  }

  /** The shortcut inside an entry, if the entry is a stream that opens, is
      at least a header long and reads as a shell link. */
  function EntryLnk(d: DirEntry, env: Env): (r: Option<Lnk>)
    ensures r.Some? <==> && d.mse == StreamObject && env.openStream(d.name).Some?
                         && |env.openStream(d.name).value| >= MinLnkSize
                         && env.readLnk(env.openStream(d.name).value).Some?
    ensures r.Some? ==> r == env.readLnk(env.openStream(d.name).value)
  {
    if d.mse != StreamObject then None
    else match env.openStream(d.name)
      case None => None
      case Some(payload) =>
        if |payload| < MinLnkSize then None
        else env.readLnk(payload)
  }

  /** The shape every jump-list event has. */
  predicate IsJumpEvent(e: TimelineEvent, evidencePath: string) {
    && e.source == "Jumplist" && e.artifact == "AutomaticDestinations" && e.action == "Access"
    && e.subject != "" && !IsZero(e.time)
    && e.details.Keys == {"args", "app_id_file", "stream_name", "target_create", "target_mod"}
    && e.details["app_id_file"] == Base(evidencePath)
    && e.evidence == PathRef(evidencePath)
  }

  /** The event for one directory entry, if any: the entry must hold a
      readable shortcut, its stream must have a real modification time and
      the target must be non-empty. */
  function EntryEvent(d: DirEntry, evidencePath: string, env: Env): (r: Option<TimelineEvent>)
    ensures r.Some? <==> && EntryLnk(d, env).Some?
                         && !IsZero(FiletimeToTime(d.modifyTime))
                         && Target(EntryLnk(d, env).value, env.gb18030) != ""
    ensures r.Some? ==> && IsJumpEvent(r.value, evidencePath)
                        && r.value.subject == Target(EntryLnk(d, env).value, env.gb18030)
                        && r.value.time == FiletimeToTime(d.modifyTime)
                        && r.value.details["stream_name"] == d.name
  {
    match EntryLnk(d, env)
    case None => None
    case Some(l) =>
      var target := Target(l, env.gb18030);
      var args := CleanString(BytesToString(l.arguments, env.gb18030));
      var modTime := FiletimeToTime(d.modifyTime);
      if !IsZero(modTime) && target != "" then
        Some(NewEvent("jump-" + d.name + "-" + Itoa(UnixNano(modTime)), modTime,
                      "Jumplist", "AutomaticDestinations", "Access", target,
                      JumpDetails(args, Base(evidencePath), d.name, env.render(l.creationTime),
                                  env.render(l.writeTime)),
                      PathRef(evidencePath)))
      else None
  }

  function JumpDetails(args: string, appIdFile: string, stream: string, create: string, modified: string)
    : (m: Details)
    ensures m.Keys == {"args", "app_id_file", "stream_name", "target_create", "target_mod"}
    ensures m["app_id_file"] == appIdFile && m["stream_name"] == stream
  {
    map["args" := args, "app_id_file" := appIdFile, "stream_name" := stream,
        "target_create" := create, "target_mod" := modified]
  }

  /** `Parse` given the compound file's directory, or the reader's error. */
  function Parse(directory: Result<seq<DirEntry>>, evidencePath: string, env: Env): (r: Result<ParseResponse>)
    ensures directory.Err? ==> r == Err("oleparse failed: " + directory.msg)
    ensures directory.Ok? ==> r.Ok? && r.value.artifacts == [] && |r.value.events| <= |directory.value|
    ensures r.Ok? ==> forall i :: 0 <= i < |r.value.events| ==> IsJumpEvent(r.value.events[i], evidencePath)
    ensures directory.Ok? ==> r.value.events == FilterMap(directory.value, d => EntryEvent(d, evidencePath, env))
  {
    match directory
    case Err(e) => Err("oleparse failed: " + e)
    case Ok(entries) => Ok(EventsResponse(FilterMap(entries, d => EntryEvent(d, evidencePath, env))))
  }

  /** Directory entries that are not streams never produce an event. */
  lemma StorageEntriesIgnored(entries: seq<DirEntry>, evidencePath: string, env: Env)
    requires forall j :: 0 <= j < |entries| ==> entries[j].mse != StreamObject
    ensures Parse(Ok(entries), evidencePath, env) == Ok(EmptyResponse)
  {
  }
}
