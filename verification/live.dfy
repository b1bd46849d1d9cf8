/** Live triage's choice of what to collect (internal/engine/pipeline.go,
    lines 108-227): the components the user selected give a list of search
    paths, and the paths that exist give the candidate files.  Globbing, stat
    and directory walking are outside this model; their results are
    parameters. */
module LiveTriage {
  import opened Wrappers
  import opened GoStr

  /** What `os.Stat` and `filepath.WalkDir` find at a search path: nothing,
      a file, or a directory and the files under it in walk order. */
  datatype PathInfo = Missing | RegularFile | Directory(files: seq<string>)

  /** The names of the virtual artifacts, collected without a file. */
  const VirtualNames: set<string> := {"LIVE_HKCU", "LIVE_NETWORK", "LIVE_WMI", "LIVE_BROWSER"}

  const NoArtifactsError: string := "no live artifacts found (check permissions or selection)"

  function AnyFold(cs: seq<string>, name: string): (r: bool)
    ensures r <==> exists i :: 0 <= i < |cs| && EqualFold(cs[i], name)
  {
    if |cs| == 0 then false
    else EqualFold(cs[0], name) || AnyFold(cs[1..], name)
  }

  /** `isEnabled`: with no selection (a nil list) every component is on;
      otherwise a component is on when some selected name equals it up to
      case. */
  function IsEnabled(components: Option<seq<string>>, name: string): (r: bool)
    ensures components.None? ==> r
    ensures components.Some? ==> (r <==> exists i :: 0 <= i < |components.value| && EqualFold(components.value[i], name))
  {
    match components
    case None => true
    case Some(cs) => AnyFold(cs, name)
  }

  /** The fixed paths are spelled out from these directories; each lies on
      drive C. */
  const WindowsDir: string := "C:\\Windows"
  const ConfigDir: string := WindowsDir + "\\System32\\config"
  const LogsDir: string := WindowsDir + "\\System32\\winevt\\Logs"

  const PrefetchPaths: seq<string> := [WindowsDir + "\\Prefetch"]

  const HivePaths: seq<string> := [
    ConfigDir + "\\SYSTEM",
    ConfigDir + "\\SOFTWARE",
    ConfigDir + "\\SAM",
    ConfigDir + "\\SECURITY",
    ConfigDir + "\\Amcache.hve"]

  const TaskPaths: seq<string> := [WindowsDir + "\\System32\\Tasks"]

  const EventLogPaths: seq<string> := [
    LogsDir + "\\Security.evtx",
    LogsDir + "\\System.evtx",
    LogsDir + "\\Microsoft-Windows-TaskScheduler%4Operational.evtx",
    LogsDir + "\\Microsoft-Windows-TerminalServices-LocalSessionManager%4Operational.evtx"]

  predicate OnDriveC(paths: seq<string>) {
    forall i :: 0 <= i < |paths| ==> |paths[i]| > 0 && paths[i][0] == 'C'
  }

  lemma FixedPathsOnDriveC()
    ensures OnDriveC(PrefetchPaths) && OnDriveC(HivePaths) && OnDriveC(TaskPaths) && OnDriveC(EventLogPaths)
  {
  }

  /** A name that does not start with C is none of the fixed paths. */
  lemma NotFixed(x: string)
    requires |x| > 0 && x[0] != 'C'
    ensures x !in PrefetchPaths && x !in HivePaths && x !in TaskPaths && x !in EventLogPaths
  {
    FixedPathsOnDriveC();
  }

  function When(on: bool, paths: seq<string>): (r: seq<string>)
    ensures on ==> r == paths
    ensures !on ==> r == []
  {
    if on then paths else []
  }

  /** The search paths in the order the components are tested: prefetch,
      registry (the hives, the user hives the glob found, then the current
      user's hive), tasks, event logs, jump lists, network, WMI, browser. */
  function SearchPaths(components: Option<seq<string>>, userHives: seq<string>, jumpLists: seq<string>)
    : (r: seq<string>)
    ensures components == Some([]) ==> r == []
    ensures IsEnabled(components, "Network") ==> "LIVE_NETWORK" in r
    ensures "LIVE_NETWORK" !in userHives + jumpLists ==> ("LIVE_NETWORK" in r <==> IsEnabled(components, "Network"))
    ensures "LIVE_HKCU" !in jumpLists ==> ("LIVE_HKCU" in r <==> IsEnabled(components, "Registry"))
  {
    FileBackedPaths(components, userHives) + LaterPaths(components, jumpLists)
  }

  /** Prefetch, registry, tasks and event logs: the registry's own virtual
      hive is the only virtual name among them, short of a user hive path
      spelled like one. */
  function FileBackedPaths(components: Option<seq<string>>, userHives: seq<string>): (r: seq<string>)
    ensures components == Some([]) ==> r == []
    ensures "LIVE_HKCU" in r <==> IsEnabled(components, "Registry")
    ensures "LIVE_NETWORK" in r ==> "LIVE_NETWORK" in userHives
  {
    var prefetch := When(IsEnabled(components, "Prefetch"), PrefetchPaths);
    var registry := When(IsEnabled(components, "Registry"), HivePaths + userHives + ["LIVE_HKCU"]);
    var tasks := When(IsEnabled(components, "Tasks"), TaskPaths);
    var logs := When(IsEnabled(components, "EventLogs"), EventLogPaths);
    NotFixed("LIVE_NETWORK");
    NotFixed("LIVE_HKCU");
    prefetch + registry + tasks + logs
  }

  /** Jump lists, network, WMI and browser. */
  function LaterPaths(components: Option<seq<string>>, jumpLists: seq<string>): (r: seq<string>)
    ensures components == Some([]) ==> r == []
    ensures IsEnabled(components, "Network") ==> "LIVE_NETWORK" in r
    ensures "LIVE_NETWORK" !in jumpLists ==> ("LIVE_NETWORK" in r <==> IsEnabled(components, "Network"))
    ensures "LIVE_HKCU" !in jumpLists ==> "LIVE_HKCU" !in r
  {
    var jumps := When(IsEnabled(components, "JumpLists"), jumpLists);
    var network := When(IsEnabled(components, "Network"), ["LIVE_NETWORK"]);
    var wmi := When(IsEnabled(components, "WMI"), ["LIVE_WMI"]);
    var browser := When(IsEnabled(components, "Browser"), ["LIVE_BROWSER"]);
    jumps + network + wmi + browser
  }

  /** The candidates one search path contributes. */
  function Expand(path: string, stat: string -> PathInfo): (r: seq<string>)
    ensures path in VirtualNames ==> r == [path]
    ensures path !in VirtualNames && stat(path).Missing? ==> r == []
    ensures path !in VirtualNames && stat(path).RegularFile? ==> r == [path]
    ensures path !in VirtualNames && stat(path).Directory? ==> r == stat(path).files
  {
    if path in VirtualNames then [path]
    else match stat(path)
      case Missing => []
      case RegularFile => [path]
      case Directory(files) => files
  }

  /** The candidates are exactly what the search paths contribute: every
      candidate comes from some search path, and every virtual search path,
      existing file and file of an existing directory is a candidate. */
  function CandidateFiles(paths: seq<string>, stat: string -> PathInfo): (r: seq<string>)
    ensures forall c :: c in r ==> exists i :: 0 <= i < |paths| && c in Expand(paths[i], stat)
    ensures forall i, c :: 0 <= i < |paths| && c in Expand(paths[i], stat) ==> c in r
    ensures forall i :: 0 <= i < |paths| && paths[i] in VirtualNames ==> paths[i] in r
    ensures |paths| == 0 ==> r == []
  {
    if |paths| == 0 then []
    else
      var rest := CandidateFiles(paths[1..], stat);
      assert forall c :: c in rest ==> exists i :: 0 <= i < |paths[1..]| && c in Expand(paths[1..][i], stat);
      assert forall i :: 1 <= i < |paths| ==> paths[i] == paths[1..][i - 1];
      Expand(paths[0], stat) + rest
  }

  /** The search paths are walked in order: one more path adds its
      contribution at the end. */
  lemma {:induction false} CandidateFilesSnoc(paths: seq<string>, path: string, stat: string -> PathInfo)
    ensures CandidateFiles(paths + [path], stat) == CandidateFiles(paths, stat) + Expand(path, stat)
  {
    if |paths| == 0 {
      assert [path][1..] == [];
    } else {
      assert (paths + [path])[1..] == paths[1..] + [path];
      assert (paths + [path])[0] == paths[0];
      CandidateFilesSnoc(paths[1..], path, stat);
    }
  }

  /** The candidates of a live triage, or the error when there are none. */
  function Candidates(components: Option<seq<string>>, userHives: seq<string>, jumpLists: seq<string>,
                      stat: string -> PathInfo): (r: Result<seq<string>>)
    ensures r.Err? <==> CandidateFiles(SearchPaths(components, userHives, jumpLists), stat) == []
    ensures r.Err? ==> r.msg == NoArtifactsError
    ensures r.Ok? ==> r.value == CandidateFiles(SearchPaths(components, userHives, jumpLists), stat)
  {
    var files := CandidateFiles(SearchPaths(components, userHives, jumpLists), stat);
    if |files| == 0 then Err(NoArtifactsError) else Ok(files)
  }

  /** An empty selection (as opposed to none) collects nothing and fails. */
  lemma EmptySelectionFails(userHives: seq<string>, jumpLists: seq<string>, stat: string -> PathInfo)
    ensures Candidates(Some([]), userHives, jumpLists, stat) == Err(NoArtifactsError)
  {
  }

  /** Selecting the network component always yields a candidate, whatever
      exists on disk. */
  lemma NetworkSelectedSucceeds(components: Option<seq<string>>, userHives: seq<string>, jumpLists: seq<string>,
                                stat: string -> PathInfo)
    requires IsEnabled(components, "Network")
    ensures Candidates(components, userHives, jumpLists, stat).Ok?
    ensures "LIVE_NETWORK" in Candidates(components, userHives, jumpLists, stat).value
  {
    var paths := SearchPaths(components, userHives, jumpLists);
    var i :| 0 <= i < |paths| && paths[i] == "LIVE_NETWORK";
    assert paths[i] in VirtualNames;
  }
}
