/** File dispatch in the triage pipeline (internal/engine/pipeline.go and
    internal/plugin/registry.go): the fixed parser order, first-match parser
    selection, source inference, the system-hive table and the fix-ups that
    make events read from a temporary copy point back at the original file.

    Opening the file, dumping hives and copying locked files are outside
    this model; what they produce (the header, the temporary file name) are
    parameters, and so is the chosen parser's own `Parse`. */
module Dispatch {
  import opened Wrappers
  import opened GoStr
  import opened Model
  import LnkStub
  import Wintri
  import Prefetch
  import ShimCache
  import Amcache
  import UserAssist
  import Jumplist
  import TaskXml
  import Evtx
  import Sam

  datatype ParserKind =
    | LnkStubParser
    | WintriProcessParser
    | PrefetchParser
    | ShimCacheParser
    | AmcacheParser
    | UserAssistParser
    | JumplistParser
    | TaskXmlParser
    | EvtxParser
    | SamParser

  /** The parser list of `NewDefaultRegistry`, in order.  The scheduled-task
      parser is registered twice. */
  const Parsers: seq<ParserKind> := [
    LnkStubParser, WintriProcessParser, PrefetchParser, ShimCacheParser, AmcacheParser,
    UserAssistParser, JumplistParser, TaskXmlParser, TaskXmlParser, EvtxParser, SamParser]

  /** The `CanParse` of each parser. */
  predicate Accepts(p: ParserKind, name: string, header: seq<Byte>) {
    match p
    case LnkStubParser => LnkStub.CanParse(name, header)
    case WintriProcessParser => Wintri.CanParse(name, header)
    case PrefetchParser => Prefetch.CanParse(name, header)
    case ShimCacheParser => ShimCache.CanParse(name, header)
    case AmcacheParser => Amcache.CanParse(name, header)
    case UserAssistParser => UserAssist.CanParse(name, header)
    case JumplistParser => Jumplist.CanParse(name, header)
    case TaskXmlParser => TaskXml.CanParse(name, header)
    case EvtxParser => Evtx.CanParse(name, header)
    case SamParser => Sam.CanParse(name, header)
  }

  /** The first position from `i` on whose element `accepts` takes. */
  function FindFrom<T>(xs: seq<T>, accepts: T -> bool, i: nat): (r: Option<nat>)
    requires i <= |xs|
    ensures r.Some? ==> i <= r.value < |xs| && accepts(xs[r.value])
    ensures r.Some? ==> forall j :: i <= j < r.value ==> !accepts(xs[j])
    ensures r.None? <==> forall j :: i <= j < |xs| ==> !accepts(xs[j])
    decreases |xs| - i
  {
    if i == |xs| then None
    else if accepts(xs[i]) then Some(i)
    else FindFrom(xs, accepts, i + 1)
  }

  /** `findParserFor`: the position of the first parser in list order that
      accepts the file, or None when none does. */
  function FindParser(parsers: seq<ParserKind>, name: string, header: seq<Byte>): (r: Option<nat>)
    ensures r.Some? ==> r.value < |parsers| && Accepts(parsers[r.value], name, header)
    ensures r.Some? ==> forall j :: 0 <= j < r.value ==> !Accepts(parsers[j], name, header)
    ensures r.None? <==> forall j :: 0 <= j < |parsers| ==> !Accepts(parsers[j], name, header)
  {
    FindFrom(parsers, p => Accepts(p, name, header), 0)
  }

  /** The second registration of the scheduled-task parser is never chosen:
      the first one, just before it, accepts exactly the same files. */
  lemma SecondTaskParserUnreachable(name: string, header: seq<Byte>)
    ensures FindParser(Parsers, name, header) != Some(8)
  {
  }

  /** A file the LNK stub accepts goes to the LNK stub, whatever else would
      accept it; the stub comes first. */
  lemma LnkStubTakesPrecedence(name: string, header: seq<Byte>)
    ensures LnkStub.CanParse(name, header) <==> FindParser(Parsers, name, header) == Some(0)
  {
  }

  /** An EVTX file that neither the LNK stub nor any other earlier parser
      claims is read by the EVTX parser. */
  lemma EvtxChosenWhenEarlierDecline(name: string, header: seq<Byte>)
    requires Evtx.CanParse(name, header)
    requires forall j :: 0 <= j < 9 ==> !Accepts(Parsers[j], name, header)
    ensures FindParser(Parsers, name, header) == Some(9)
  {
    assert Accepts(Parsers[9], name, header);
  }

  // ---------------------------------------------------------------------
  // Source inference

  /** `inferSource`: the source name of a file from its extension and base
      name, with the extension tested first. */
  function InferSource(path: string): (r: string)
    ensures r in {"EventLog", "Prefetch", "Amcache", "Registry", "Tasks", "File"}
    ensures Lower(Ext(path)) == ".evtx" <==> r == "EventLog"
    ensures r == "Prefetch" <==> Lower(Ext(path)) == ".pf"
    ensures r == "Amcache" <==> Lower(Ext(path)) !in {".evtx", ".pf"} && Upper(Base(path)) == "AMCACHE.HVE"
    ensures r == "Registry" <==> && Lower(Ext(path)) !in {".evtx", ".pf"}
                                 && Upper(Base(path)) in {"SYSTEM", "SOFTWARE", "SAM", "SECURITY", "NTUSER.DAT"}
    ensures r == "Tasks" <==> && Lower(Ext(path)) !in {".evtx", ".pf"}
                              && Upper(Base(path)) !in {"AMCACHE.HVE", "SYSTEM", "SOFTWARE", "SAM", "SECURITY", "NTUSER.DAT"}
                              && Contains(path, "Tasks")
  {
    var ext := Lower(Ext(path));
    var base := Upper(Base(path));
    if ext == ".evtx" then "EventLog"
    else if ext == ".pf" then "Prefetch"
    else if base == "AMCACHE.HVE" then "Amcache"
    else if base in {"SYSTEM", "SOFTWARE", "SAM", "SECURITY", "NTUSER.DAT"} then "Registry"
    else if Contains(path, "Tasks") then "Tasks"
    else "File"
  }

  lemma {:induction false} ExtFromIsSuffix(path: string, i: nat)
    requires i <= |path|
    ensures HasSuffix(path, ExtFrom(path, i))
    decreases i
  {
    if i > 0 && !IsSep(path[i - 1]) && path[i - 1] != '.' {
      ExtFromIsSuffix(path, i - 1);
    }
  }

  /** The extension is the end of the path. */
  lemma ExtIsSuffix(path: string)
    ensures HasSuffix(path, Ext(path))
  {
    ExtFromIsSuffix(path, |path|);
  }

  lemma LowerSuffix(s: string, p: string)
    requires HasSuffix(s, p)
    ensures HasSuffix(Lower(s), Lower(p))
  {
    LowerSlice(s, |s| - |p|, |s|);
  }

  /** A file inferred to be an event log, which is one with the extension
      ".evtx" in any case, is one the EVTX parser accepts. */
  lemma InferredEventLogIsEvtx(path: string, header: seq<Byte>)
    requires Lower(Ext(path)) == ".evtx"
    ensures InferSource(path) == "EventLog" && Evtx.CanParse(path, header)
  {
    ExtIsSuffix(path);
    LowerSuffix(path, Ext(path));
  }

  /** A file inferred to be a prefetch file is one the prefetch parser
      accepts, given the eight header bytes it insists on. */
  lemma InferredPrefetchIsPrefetch(path: string, header: seq<Byte>)
    requires Lower(Ext(path)) == ".pf" && |header| >= 8
    ensures InferSource(path) == "Prefetch" && Prefetch.CanParse(path, header)
  {
    ExtIsSuffix(path);
    LowerSuffix(path, Ext(path));
  }

  // ---------------------------------------------------------------------
  // System hives

  const HiveNames: seq<string> := ["SYSTEM", "SOFTWARE", "SAM", "SECURITY"]

  /** The root every dumped hive key starts with. */
  const Hklm: string := "HKLM\\"

  /** The `switch` of `isSystemHive` on the base name. */
  function HiveKey(base: string): (r: Option<string>)
    ensures r.Some? ==> r.value in {Hklm + "SYSTEM", Hklm + "SOFTWARE", Hklm + "SAM", Hklm + "SECURITY"}
  {
    if base == "SYSTEM" || base == "system" then Some(Hklm + "SYSTEM")
    else if base == "SOFTWARE" || base == "software" then Some(Hklm + "SOFTWARE")
    else if base == "SAM" || base == "sam" then Some(Hklm + "SAM")
    else if base == "SECURITY" || base == "security" then Some(Hklm + "SECURITY")
    else None
  }

  /** `isSystemHive`: the registry key that `reg save` dumps for a hive
      file, chosen by the exact base name of the path. */
  function IsSystemHive(path: string): (r: Option<string>)
    ensures r == HiveKey(Base(CleanSeparators(path)))
  {
    HiveKey(Base(CleanSeparators(path)))
  }

  /** A string that lower-casing leaves alone and that upper-cases to `n` is
      the lower-case spelling of `n`. */
  lemma LowerSpelling(b: string, n: string)
    requires Upper(b) == n && Lower(b) == b
    ensures b == Lower(n)
  {
    forall i | 0 <= i < |b|
      ensures b[i] == LowerChar(n[i])
    {
      assert LowerChar(b[i]) == b[i];
      assert n[i] == UpperChar(b[i]);
    }
  }

  /** The eight names `isSystemHive` recognises. */
  const HiveSpellings: set<string> :=
    {"SYSTEM", "system", "SOFTWARE", "software", "SAM", "sam", "SECURITY", "security"}

  lemma LowerHiveNames()
    ensures Lower("SYSTEM") == "system" && Lower("SOFTWARE") == "software"
    ensures Lower("SAM") == "sam" && Lower("SECURITY") == "security"
  {
  }

  lemma UpperHiveNames()
    ensures Upper("system") == "SYSTEM" && Upper("software") == "SOFTWARE"
    ensures Upper("sam") == "SAM" && Upper("security") == "SECURITY"
    ensures Upper("SYSTEM") == "SYSTEM" && Upper("SOFTWARE") == "SOFTWARE"
    ensures Upper("SAM") == "SAM" && Upper("SECURITY") == "SECURITY"
  {
  }

  /** The recognised names are exactly the hive names in all capitals or
      all small letters. */
  lemma SpellingsAreCaseForms(b: string)
    ensures b in HiveSpellings <==> Upper(b) in HiveNames && (b == Upper(b) || b == Lower(b))
  {
    LowerHiveNames();
    UpperHiveNames();
    if Upper(b) in HiveNames && b == Lower(b) {
      LowerSpelling(b, Upper(b));
    }
  }

  /** A hive name is recognised only in all capitals or all small letters
      ("System" or "Sam" are not hives to dump), and the key is HKLM\ and
      the name in capitals. */
  lemma HiveSpelling(b: string)
    ensures HiveKey(b).Some? <==> Upper(b) in HiveNames && (b == Upper(b) || b == Lower(b))
    ensures HiveKey(b).Some? ==> HiveKey(b).value == Hklm + Upper(b)
  {
    SpellingsAreCaseForms(b);
    HiveKeyOfSpelling(b);
  }

  lemma HiveKeyOfSpelling(b: string)
    ensures HiveKey(b).Some? <==> b in HiveSpellings
    ensures HiveKey(b).Some? ==> HiveKey(b).value == Hklm + Upper(b)
  {
    UpperHiveNames();
  }

  /** Mixed-case spellings are not dumped as hives. */
  lemma MixedCaseIsNoHive()
    ensures HiveKey("System") == None && HiveKey("Sam") == None && HiveKey("Software") == None
  {
    assert "System"[1] != "SYSTEM"[1] && "System"[0] != "system"[0];
    assert "Sam"[1] != "SAM"[1] && "Sam"[0] != "sam"[0];
    assert "Software"[1] != "SOFTWARE"[1] && "Software"[0] != "software"[0];
  }

  // ---------------------------------------------------------------------
  // Fix-ups for events read from a temporary copy

  /** The marker in the name of a copied locked file. */
  const DumpMarker: string := "gtrace_dump_file_"

  /** The artifact name an event keeps, or the original file's base name
      when it names the temporary copy. */
  function FixArtifact(artifact: string, file: string, targetFile: string, copied: bool): string {
    if Contains(artifact, DumpMarker) || (copied && artifact == Base(targetFile)) then Base(file) else artifact
  }

  /** An event returned by a parser that read the temporary copy
      `targetFile` of `file`: the evidence path becomes the original file, an
      artifact naming the copy becomes the original's base name, and a
      missing or generic source is inferred from the original path. */
  function FixBatchEvent(ev: TimelineEvent, file: string, targetFile: string): (r: TimelineEvent)
    ensures r.evidence == EvidenceRef(file, ev.evidence.sha256)
    ensures r.source != ""
    ensures ev.source !in {"File", ""} ==> r.source == ev.source
    ensures ev.source in {"File", ""} ==> r.source == InferSource(file)
    ensures !Contains(ev.artifact, DumpMarker) && ev.artifact != Base(targetFile) ==> r.artifact == ev.artifact
    ensures r.(artifact := ev.artifact, source := ev.source, evidence := ev.evidence) == ev
  {
    var source := if ev.source == "File" || ev.source == "" then InferSource(file) else ev.source;
    ev.(evidence := ev.evidence.(sourcePath := file),
        artifact := FixArtifact(ev.artifact, file, targetFile, true),
        source := source)
  }

  /** The fix-up is stable: applying it twice changes nothing more. */
  lemma FixBatchIdempotent(ev: TimelineEvent, file: string, targetFile: string)
    ensures FixBatchEvent(FixBatchEvent(ev, file, targetFile), file, targetFile) == FixBatchEvent(ev, file, targetFile)
  {
  }

  /** The wrapped stream callback: an artifact naming a dump file is always
      fixed, while the evidence path and the source are fixed only when a
      temporary copy was read. */
  function FixStreamEvent(ev: TimelineEvent, file: string, targetFile: string, tempFile: string): (r: TimelineEvent)
    ensures tempFile == "" ==> r == ev.(artifact := FixArtifact(ev.artifact, file, targetFile, false))
    ensures tempFile == "" && !Contains(ev.artifact, DumpMarker) ==> r == ev
  {
    var artifact := FixArtifact(ev.artifact, file, targetFile, tempFile != "");
    if tempFile == "" then ev.(artifact := artifact)
    else
      var source := if ev.source == "File" || ev.source == "" then InferSource(file) else ev.source;
      ev.(artifact := artifact, evidence := ev.evidence.(sourcePath := file), source := source)
  }

  /** Streamed and returned events from a temporary copy are fixed alike. */
  lemma StreamAgreesWithBatch(ev: TimelineEvent, file: string, targetFile: string, tempFile: string)
    requires tempFile != ""
    ensures FixStreamEvent(ev, file, targetFile, tempFile) == FixBatchEvent(ev, file, targetFile)
  {
  }

  function FixEvents(events: seq<TimelineEvent>, file: string, targetFile: string): (r: seq<TimelineEvent>)
    ensures |r| == |events|
    ensures forall i :: 0 <= i < |r| ==> r[i] == FixBatchEvent(events[i], file, targetFile)
  {
    seq(|events|, i requires 0 <= i < |events| => FixBatchEvent(events[i], file, targetFile))
  }

  function FixArtifacts(artifacts: seq<Artifact>, file: string): (r: seq<Artifact>)
    ensures |r| == |artifacts|
    ensures forall i :: 0 <= i < |r| ==> r[i] == artifacts[i].(evidence := artifacts[i].evidence.(sourcePath := file))
  {
    var a := artifacts;
    seq(|a|, i requires 0 <= i < |a| => a[i].(evidence := a[i].evidence.(sourcePath := file)))
  }

  /** The response fix-up applied when a temporary copy was read. */
  function FixResponse(resp: ParseResponse, file: string, targetFile: string): (r: ParseResponse)
    ensures |r.events| == |resp.events| && |r.artifacts| == |resp.artifacts|
    ensures forall i :: 0 <= i < |r.events| ==> r.events[i].evidence.sourcePath == file && r.events[i].source != ""
    ensures forall i :: 0 <= i < |r.artifacts| ==> r.artifacts[i].evidence.sourcePath == file
  {
    ParseResponse(FixArtifacts(resp.artifacts, file), FixEvents(resp.events, file, targetFile))
  }

  // ---------------------------------------------------------------------
  // processFile after acquisition

  /** `processFile` once the file to read is known: `header` is None when
      the file could not be opened, the parser is chosen by the ORIGINAL
      name `file`, and `parse` is that parser's `Parse` on `targetFile`.
      A file nobody parses is skipped without an error. */
  function ProcessFile(file: string, targetFile: string, tempFile: string, header: Option<seq<Byte>>,
                       parse: ParserKind -> Result<ParseResponse>): (r: Result<Option<ParseResponse>>)
    ensures header.None? ==> r == Ok(None)
    ensures header.Some? ==> (r == Ok(None) <==> FindParser(Parsers, file, header.value).None?)
    ensures header.Some? && FindParser(Parsers, file, header.value).Some? ==>
              var p := Parsers[FindParser(Parsers, file, header.value).value];
              && (parse(p).Err? ==> r == Err(parse(p).msg))
              && (parse(p).Ok? && tempFile == "" ==> r == Ok(Some(parse(p).value)))
              && (parse(p).Ok? && tempFile != "" ==> r == Ok(Some(FixResponse(parse(p).value, file, targetFile))))
  {
    match header
    case None => Ok(None)
    case Some(h) =>
      match FindParser(Parsers, file, h)
      case None => Ok(None)
      case Some(i) =>
        match parse(Parsers[i])
        case Err(e) => Err(e)
        case Ok(resp) => Ok(Some(if tempFile != "" then FixResponse(resp, file, targetFile) else resp))
  }
}
