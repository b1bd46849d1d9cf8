/** The Windows event-log parser (internal/plugin/evtx.go).  Reading chunks
    and decoding binary XML is done by a library outside this model: a file
    arrives as its chunks, each either unreadable or a sequence of records
    whose System and EventData parts are already decoded. */
module Evtx {
  import opened Wrappers
  import opened GoStr
  import opened Model
  import opened TimeConv
  import opened Seqs

  type FileTime = x: int | 0 <= x <= 0xFFFF_FFFF_FFFF_FFFF

  /** The decoded content of a record: the event id as extracted from the
      System part (0 when extraction fails), the optional Channel and
      Computer strings, the Level as an integer (0 when absent or of
      another type), and the EventData and UserData entries, already
      formatted, in document order. */
  datatype Content = Content(
    eid: int,
    channel: Option<string>,
    computer: Option<string>,
    level: int,
    eventData: seq<(string, string)>,
    userData: seq<(string, string)>)

  /** A record: header FILETIME and record id, and its content, `None` when
      the decoded event has no usable System part. */
  datatype Record = Record(fileTime: FileTime, recordId: nat, content: Option<Content>)

  /** A chunk that parsed into records, or `None` when parsing failed. */
  type Chunk = Option<seq<Record>>

  const DefaultMaxEvents: int := 100000
  const DefaultDays: int := 3650
  const MinScanLimit: int := 500000
  const UnknownBudget: nat := 1000
  const ShortSubjectLen: nat := 60

  predicate CanParse(path: string, header: seq<Byte>) {
    (|header| >= 8 && AsString(header[..8]) == "ElfFile\0") || HasSuffix(Lower(path), ".evtx")
  }

  /** `extractFileName`: the text after the last backslash, or failing that
      after the last forward slash, or the whole path. */
  function ExtractFileName(path: string): (r: string)
    ensures HasSuffix(path, r)
    ensures '\\' in path ==> '\\' !in r
    ensures '\\' !in path && '/' in path ==> '/' !in r
    ensures '\\' !in path && '/' !in path ==> r == path
  {
    if '\\' in path then AfterLast(path, '\\') else AfterLast(path, '/')
  }

  /** The text after the last `c`, or all of `s` when it has none. */
  function AfterLast(s: string, c: char): (r: string)
    ensures HasSuffix(s, r) && c !in r
    ensures c !in s ==> r == s
  {
    var k := LastIndexOf(s, c);
    var r := s[k + 1..];
    assert s[|s| - |r|..] == r;
    assert c !in s ==> k == -1 && r == s;
    r
  }

  /** Index of the last `c` in `s`, or -1. */
  function LastIndexOf(s: string, c: char): (r: int)
    ensures -1 <= r < |s|
    ensures r >= 0 ==> s[r] == c
    ensures c !in s[r + 1..]
    ensures r < 0 ==> c !in s
  {
    if |s| == 0 then -1
    else if s[|s| - 1] == c then |s| - 1
    else LastIndexOf(s[..|s| - 1], c)
  }

  /** Backslashes are looked for first, so a forward slash after the last
      backslash stays in the name, unlike with `filepath.Base`. */
  lemma BackslashFirst()
    ensures ExtractFileName("a\\b/c") == "b/c"
  {
    assert LastIndexOf("a\\b/c", '\\') == 1;
  }

  /** The action names of the event ids the parser knows, kept in four
      groups: system and services; logon and account management; processes,
      objects, audit policy and tasks; remote desktop, Defender, PowerShell
      and the rest. */
  const SystemEvents: map<int, string> := map[
    1 := "System Time Changed", 12 := "System Started (Kernel)", 13 := "System Shutdown (Kernel)",
    14 := "Password Changed", 24 := "Time Zone Changed", 41 := "System Rebooted (Unexpected)",
    104 := "Log Fetched/Cleared", 109 := "Shutdown Intent (Kernel-Power)", 1074 := "System Sleep/Hibernation",
    6005 := "Event Log Service Started", 6006 := "Event Log Service Stopped", 6008 := "Unexpected Shutdown",
    6009 := "OS Version Detected", 6013 := "System Uptime", 7000 := "Service Start Failed",
    7009 := "Service Timeout", 7023 := "Service Error", 7024 := "Service Error", 7034 := "Service Crashed",
    7036 := "Service State Change", 7040 := "Service Start Type Change", 7045 := "Service Installed"]

  const AccountEvents: map<int, string> := map[
    4608 := "Windows Started", 4609 := "Windows Shutdown", 4616 := "System Time Changed",
    4624 := "Logon Success", 4625 := "Logon Failed", 4634 := "Logoff", 4647 := "User Initiated Logoff",
    4648 := "Logon with Explicit Creds", 4672 := "Admin/Special Logon", 4776 := "Credential Validation",
    4800 := "Workstation Locked", 4801 := "Workstation Unlocked",
    4720 := "User Created", 4722 := "User Enabled", 4723 := "User Password Change Attempt",
    4724 := "User Password Reset Attempt", 4725 := "User Disabled", 4726 := "User Deleted",
    4728 := "Member Added to Global Group", 4729 := "Member Removed from Global Group",
    4732 := "Member Added to Local Group", 4733 := "Member Removed from Local Group",
    4735 := "Security Group Modified", 4738 := "User Account Modified", 4740 := "Account Locked Out",
    4756 := "Member Added to Universal Group", 4757 := "Member Removed from Universal Group",
    4767 := "Account Unlocked", 4797 := "Blank Password Check", 4798 := "Local Group Enumerated",
    4799 := "Local Group Member Enumerated"]

  const ObjectEvents: map<int, string> := map[
    4688 := "Process Created", 4689 := "Process Terminated", 4696 := "Primary Token Assigned",
    4656 := "Handle Requested", 4658 := "Handle Closed", 4663 := "Object Access", 4690 := "Handle Duplicated",
    5140 := "Network Share Accessed", 5145 := "Network Share Object Checked",
    1102 := "Audit Log Cleared", 4719 := "Audit Policy Changed", 4902 := "Audit Policy Table Created",
    4907 := "Auditing Settings Changed",
    4698 := "Task Created", 4699 := "Task Deleted", 4700 := "Task Enabled", 4701 := "Task Disabled",
    4702 := "Task Updated", 106 := "Task Registered", 129 := "Task Process Created", 140 := "Task Updated",
    141 := "Task Deleted", 200 := "Task Action Started"]

  const OtherEvents: map<int, string> := map[
    21 := "RDP Session Logon", 22 := "RDP Shell Start", 23 := "RDP Logoff", 25 := "RDP Reconnect",
    39 := "RDP Disconnect", 1149 := "RDP Auth Succeeded",
    1000 := "Defender Error", 1001 := "Defender Scan Complete", 1116 := "Malware Detected",
    1117 := "Malware Action Taken", 5000 := "Real-time Protection Enabled",
    5001 := "Real-time Protection Disabled", 5007 := "Defender Config Changed",
    4103 := "PS Module Logging", 4104 := "PS Script Block", 800 := "PS Pipeline Exec",
    5379 := "Credential Manager Read", 4826 := "Boot Config Loaded"]

  const Interesting: map<int, string> := SystemEvents + AccountEvents + ObjectEvents + OtherEvents

  /** `getEventCategory`. */
  function Category(eid: int): (r: string)
    ensures r in {"Logon", "Account", "Process", "Persistence", "System", "Security", "General"}
    ensures eid in {4688, 4689} <==> r == "Process"
  {
    if eid in {4624, 4625, 4672, 4768, 4769, 21, 25, 24, 1149} then "Logon"
    else if eid in {4720, 4726, 4728, 4729, 4732, 4733, 4756} then "Account"
    else if eid in {4688, 4689} then "Process"
    else if eid in {4698, 4699, 4700, 4701, 4702, 106, 129, 140, 141, 200, 7045} then "Persistence"
    else if eid in {6005, 6006, 7036, 7040, 12, 13, 109, 41, 6} then "System"
    else if eid in {1102, 1116, 1117, 5001} then "Security"
    else "General"
  }

  /** Keys written by a sequence of entries under a prefix. */
  function PairKeys(pairs: seq<(string, string)>, prefix: string): set<string> {
    set i | 0 <= i < |pairs| :: prefix + pairs[i].0
  }

  /** Write every entry, in order, under `prefix`: later entries overwrite
      earlier ones and the other keys keep their values. */
  function ApplyPairs(m: Details, pairs: seq<(string, string)>, prefix: string): (r: Details)
    ensures r.Keys == m.Keys + PairKeys(pairs, prefix)
    ensures forall k :: k in m && k !in PairKeys(pairs, prefix) ==> r[k] == m[k]
    ensures |pairs| > 0 ==> r[prefix + pairs[|pairs| - 1].0] == pairs[|pairs| - 1].1
    decreases |pairs|
  {
    if |pairs| == 0 then m
    else
      var init := pairs[..|pairs| - 1];
      var last := pairs[|pairs| - 1];
      var r := ApplyPairs(m, init, prefix)[prefix + last.0 := last.1];
      assert PairKeys(pairs, prefix) == PairKeys(init, prefix) + {prefix + last.0} by {
        forall k | k in PairKeys(pairs, prefix)
          ensures k in PairKeys(init, prefix) + {prefix + last.0}
        {
          var i :| 0 <= i < |pairs| && k == prefix + pairs[i].0;
          if i < |pairs| - 1 { assert pairs[i] == init[i]; }
        }
      }
      r
  }

  /** The details built from the System part and EventData, before any
      filter or enrichment. */
  function BaseDetails(c: Content): (p: Details)
    ensures "Category" in p && "EventID" in p
    ensures c.level > 0 ==> "Level" in p
  {
    var m0 := map["Category" := Category(c.eid)];
    var m1 := match c.channel case Some(ch) => m0["Channel" := ch] case None => m0;
    var m2 := match c.computer case Some(co) => m1["Computer" := co] case None => m1;
    var m3 := m2["EventID" := Itoa(c.eid)];
    var m4 := if c.level > 0 then LevelDetails(m3, c.level) else m3;
    ApplyPairs(m4, c.eventData, "")
  }

  /** Levels 1, 2 and 3 raise `_AlertLevel`; every positive level is also
      kept as a detail. */
  function LevelDetails(m: Details, level: int): (r: Details)
    requires level > 0
    ensures r.Keys == m.Keys + {"Level"} + (if level <= 3 then {"_AlertLevel"} else {})
    ensures r["Level"] == Itoa(level)
    ensures level == 1 ==> r["_AlertLevel"] == "Critical"
    ensures level == 2 ==> r["_AlertLevel"] == "High"
    ensures level == 3 ==> r["_AlertLevel"] == "Medium"
  {
    var a := if level == 1 then m["_AlertLevel" := "Critical"]
             else if level == 2 then m["_AlertLevel" := "High"]
             else if level == 3 then m["_AlertLevel" := "Medium"]
             else m;
    a["Level" := Itoa(level)]
  }

  /** Accounts whose logons are dropped as noise. */
  const ServiceAccounts: set<string> := {"SYSTEM", "NETWORK SERVICE", "LOCAL SERVICE", "DWM-1", "UMFD-0"}

  /** Logons of machine and service accounts, and audit-setting changes made
      by Windows Update, are dropped. */
  predicate IsNoise(eid: int, p: Details) {
    || ((eid == 4624 || eid == 4625)
        && (HasSuffix(Detail(p, "TargetUserName"), "$") || Detail(p, "TargetUserName") in ServiceAccounts))
    || (eid == 4907
        && (Contains(Lower(Detail(p, "ProcessName")), "tiworker.exe")
            || Contains(Lower(Detail(p, "ProcessName")), "trustedinstaller")))
  }

  const Rc4Alert: string := "Weak RC4 Encryption Detected (Kerberoasting?)"

  predicate WeakTicket(eid: int, p: Details) {
    (eid == 4768 || eid == 4769) && Detail(p, "TicketEncryptionType") in {"0x17", "23"}
  }

  /** Kerberos ticket requests using RC4 (type 0x17) are flagged. */
  function KerberosAlert(eid: int, p: Details): (r: Details)
    ensures WeakTicket(eid, p) ==> r == p["_Alert" := Rc4Alert]
    ensures !WeakTicket(eid, p) ==> r == p
  {
    if WeakTicket(eid, p) then p["_Alert" := Rc4Alert] else p
  }

  /** The process-creation shortcuts: `_CommandLine` for a real command line
      and `_ParentProcess` for the parent's file name. */
  function ProcessDetails(eid: int, p: Details): (r: Details)
    ensures eid != 4688 ==> r == p
    ensures eid == 4688 && Detail(p, "CommandLine") !in {"", "-"} ==>
              Detail(r, "_CommandLine") == p["CommandLine"]
    ensures eid == 4688 && Detail(p, "ParentProcessName") != "" ==>
              Detail(r, "_ParentProcess") == ExtractFileName(p["ParentProcessName"])
    ensures forall k :: k in p && k !in {"_CommandLine", "_ParentProcess"} ==> k in r && r[k] == p[k]
  {
    if eid != 4688 then p
    else ParentDetail(CommandLineDetail(p), p)
  }

  /** `_CommandLine` from a command line that is neither empty nor "-". */
  function CommandLineDetail(p: Details): (a: Details)
    ensures Detail(p, "CommandLine") !in {"", "-"} ==> Detail(a, "_CommandLine") == p["CommandLine"]
    ensures forall k :: k in p && k != "_CommandLine" ==> k in a && a[k] == p[k]
  {
    var cmd := Detail(p, "CommandLine");
    if cmd != "" && cmd != "-" then p["_CommandLine" := cmd] else p
  }

  /** `_ParentProcess` from a non-empty parent process name in `p`. */
  function ParentDetail(a: Details, p: Details): (r: Details)
    ensures Detail(p, "ParentProcessName") != "" ==> Detail(r, "_ParentProcess") == ExtractFileName(p["ParentProcessName"])
    ensures forall k :: k in a && k != "_ParentProcess" ==> k in r && r[k] == a[k]
  {
    var parent := Detail(p, "ParentProcessName");
    if parent != "" then a["_ParentProcess" := ExtractFileName(parent)] else a
  }

  /** Long object names keep their last 57 bytes behind "...". */
  function ShortenObjectName(s: string): (r: string)
    ensures |r| <= ShortSubjectLen || r == s
    ensures |s| > ShortSubjectLen ==> |r| == ShortSubjectLen && HasPrefix(r, "...") && HasSuffix(s, r[3..])
    ensures |s| <= ShortSubjectLen ==> r == s
  {
    if |s| > ShortSubjectLen then "..." + s[|s| - 57..] else s
  }

  /** The value of the first key in `keys` whose value is non-empty. */
  function FirstNonEmpty(p: Details, keys: seq<string>): (r: string)
    ensures r == "" <==> forall i :: 0 <= i < |keys| ==> Detail(p, keys[i]) == ""
    ensures r != "" ==> exists i :: 0 <= i < |keys| && r == Detail(p, keys[i])
                                    && forall j :: 0 <= j < i ==> Detail(p, keys[j]) == ""
  {
    FirstNonEmptyFrom(p, keys, 0)
  }

  function FirstNonEmptyFrom(p: Details, keys: seq<string>, k: nat): (r: string)
    requires k <= |keys|
    ensures r == "" <==> forall i :: k <= i < |keys| ==> Detail(p, keys[i]) == ""
    ensures r != "" ==> exists i :: k <= i < |keys| && r == Detail(p, keys[i])
                                    && forall j :: k <= j < i ==> Detail(p, keys[j]) == ""
    decreases |keys| - k
  {
    if k == |keys| then ""
    else if Detail(p, keys[k]) != "" then Detail(p, keys[k])
    else FirstNonEmptyFrom(p, keys, k + 1)
  }

  /** The subject: the process file name for process creation and exit,
      else the first non-empty of TaskName, ServiceName and TargetUserName,
      else the shortened ObjectName, else SubjectUserName unless it is "-". */
  function Subject(eid: int, p: Details): (r: string)
    ensures var own := OwnSubject(eid, p);
            var named := FirstNonEmpty(p, ["TaskName", "ServiceName", "TargetUserName"]);
            && (own != "" ==> r == own)
            && (own == "" && named != "" ==> r == named)
            && (own == "" && named == "" && Detail(p, "ObjectName") != "" ==>
                  r == ShortenObjectName(p["ObjectName"]) && |r| <= ShortSubjectLen)
            && (own == "" && named == "" && Detail(p, "ObjectName") == "" ==>
                  r == (if Detail(p, "SubjectUserName") == "-" then "" else Detail(p, "SubjectUserName")))
  {
    var own := OwnSubject(eid, p);
    if own != "" then own
    else
      var named := FirstNonEmpty(p, ["TaskName", "ServiceName", "TargetUserName"]);
      if named != "" then named
      else if Detail(p, "ObjectName") != "" then
        var obj := p["ObjectName"];
        assert |obj| <= ShortSubjectLen ==> ShortenObjectName(obj) == obj;
        ShortenObjectName(obj)
      else if Detail(p, "SubjectUserName") == "-" then ""
      else Detail(p, "SubjectUserName")
  }

  /** The subject process creation and exit name for themselves. */
  function OwnSubject(eid: int, p: Details): (r: string)
    ensures eid != 4688 && eid != 4689 ==> r == ""
    ensures eid == 4688 && Detail(p, "NewProcessName") != "" ==> r == ExtractFileName(p["NewProcessName"])
    ensures eid == 4689 && Detail(p, "ProcessName") != "" ==> r == Base(p["ProcessName"]) && r != ""
  {
    if eid == 4688 && Detail(p, "NewProcessName") != "" then ExtractFileName(p["NewProcessName"])
    else if eid == 4689 && Detail(p, "ProcessName") != "" then Base(p["ProcessName"])
    else ""
  }

  /** What a record contributes once it has passed the time and count
      checks: nothing, or its event and whether its id is unknown. */
  function RecordEvent(r: Record, evidencePath: string): (out: Option<(TimelineEvent, bool)>)
    ensures out.Some? <==> r.content.Some? && !IsNoise(r.content.value.eid, BaseDetails(r.content.value))
    ensures out.Some? ==> var e := out.value.0;
                          && e.time == FiletimeToTime(r.fileTime) && e.source == "EventLog"
                          && e.artifact == Base(evidencePath)
                          && (out.value.1 <==> Describe(r.content.value.eid).None?)
                          && e.action == (if out.value.1 then "Unknown" else Describe(r.content.value.eid).value)
                          && (e.action == "Unknown" <==> out.value.1)
                          && e.details == EventDetails(r.content.value, BaseDetails(r.content.value))
  {
    match r.content
    case None => None
    case Some(c) =>
      var p0 := BaseDetails(c);
      if IsNoise(c.eid, p0) then None
      else Some(ContentEvent(c, p0, r, evidencePath))
  }

  /** The event of a record whose content `c` (with base details `p0`) is
      not noise, and whether its id is unknown. */
  function ContentEvent(c: Content, p0: Details, r: Record, evidencePath: string): (out: (TimelineEvent, bool))
    ensures var e := out.0;
            && e.time == FiletimeToTime(r.fileTime) && e.source == "EventLog"
            && e.artifact == Base(evidencePath)
            && (out.1 <==> Describe(c.eid).None?)
            && e.action == (if out.1 then "Unknown" else Describe(c.eid).value)
            && (e.action == "Unknown" <==> out.1)
            && e.details == EventDetails(c, p0)
  {
    var name := Describe(c.eid);
    var unknown := name.None?;
    var desc := if unknown then "Unknown" else name.value;
    var p2 := EventDetails(c, p0);
    (NewEvent("evtx-" + Itoa(c.eid) + "-" + Itoa(r.recordId), FiletimeToTime(r.fileTime),
              "EventLog", Base(evidencePath), desc, Subject(c.eid, p2), p2, PathRef(evidencePath)),
     unknown)
  }

  /** The enriched details: the RC4 alert, the user data under its prefix,
      then the process-creation fields.  An RC4 alert survives the later
      steps, whose keys all differ from `_Alert`. */
  function EventDetails(c: Content, p0: Details): (p: Details)
    ensures WeakTicket(c.eid, p0) ==> Detail(p, "_Alert") == Rc4Alert
  {
    var p1 := KerberosAlert(c.eid, p0);
    assert "_Alert" !in PairKeys(c.userData, "UserData.") by {
      forall i | 0 <= i < |c.userData|
        ensures "UserData." + c.userData[i].0 != "_Alert"
      {
        assert ("UserData." + c.userData[i].0)[0] == 'U';
      }
    }
    ProcessDetails(c.eid, ApplyPairs(p1, c.userData, "UserData."))
  }

  /** A Kerberos ticket request with an RC4 ticket is not noise, so its
      record is kept, and its details carry the weak-encryption alert,
      whatever its user data holds. */
  lemma WeakTicketFlagged(c: Content, p0: Details)
    requires c.eid in {4768, 4769}
    requires Detail(p0, "TicketEncryptionType") in {"0x17", "23"}
    ensures !IsNoise(c.eid, p0)
    ensures Detail(EventDetails(c, p0), "_Alert") == Rc4Alert
  {
    assert WeakTicket(c.eid, p0);
  }

  /** A record dropped as noise is counted as scanned but spends none of
      the unknown budget and adds no event. */
  lemma NoiseSpendsNothing(st: State, r: Record, l: Limits, evidencePath: string)
    requires Good(st, l) && |st.emitted| < l.maxEvents
    ensures r.content.Some? && IsNoise(r.content.value.eid, BaseDetails(r.content.value)) ==>
              Admit(st, RecordEvent(r, evidencePath), l) == State(st.emitted, st.unknown, st.scanned + 1, false)
  {
  }

  /** The action name of a known event id. */
  function Describe(eid: int): (r: Option<string>)
    ensures r.Some? <==> eid in Interesting
    ensures r.Some? ==> r.value == Interesting[eid] && r.value != "Unknown"
  {
    if eid in Interesting then
      KnownNamesAreNotUnknown(eid);
      Some(Interesting[eid])
    else None
  }

  /** No known event is named "Unknown", so the action tells unknown events
      apart. */
  lemma KnownNamesAreNotUnknown(eid: int)
    requires eid in Interesting
    ensures Interesting[eid] != "Unknown"
  {
    if eid in OtherEvents {
      NotUnknownInOtherEvents(eid);
    } else if eid in ObjectEvents {
      NotUnknownInObjectEvents(eid);
    } else if eid in AccountEvents {
      NotUnknownInAccountEvents(eid);
    } else {
      NotUnknownInSystemEvents(eid);
    }
  }

  lemma NotUnknownInSystemEvents(eid: int)
    requires eid in SystemEvents
    ensures SystemEvents[eid] != "Unknown"
  {
  }

  lemma NotUnknownInAccountEvents(eid: int)
    requires eid in AccountEvents
    ensures AccountEvents[eid] != "Unknown"
  {
  }

  lemma NotUnknownInObjectEvents(eid: int)
    requires eid in ObjectEvents
    ensures ObjectEvents[eid] != "Unknown"
  {
  }

  lemma NotUnknownInOtherEvents(eid: int)
    requires eid in OtherEvents
    ensures OtherEvents[eid] != "Unknown"
  {
  }



  /** Limits of one run. */
  datatype Limits = Limits(maxEvents: nat, cutoff: Instant, scanLimit: int, evidencePath: string)

  /** A positive integer setting from the request metadata, or the default. */
  function PositiveSetting(meta: map<string, string>, key: string, default: int): (v: int)
    requires default > 0
    ensures v > 0
    ensures key in meta && Atoi(meta[key]).Some? && Atoi(meta[key]).value > 0 ==> v == Atoi(meta[key]).value
    ensures !(key in meta && Atoi(meta[key]).Some? && Atoi(meta[key]).value > 0) ==> v == default
  {
    if key in meta && Atoi(meta[key]).Some? && Atoi(meta[key]).value > 0 then Atoi(meta[key]).value else default
  }

  /** `maxEvents * 50` in int64 arithmetic, raised to at least 500000. */
  function ScanLimit(maxEvents: int): (s: int)
    ensures s >= MinScanLimit
    ensures InInt64(maxEvents * 50) ==> s == if maxEvents * 50 < MinScanLimit then MinScanLimit else maxEvents * 50
  {
    var s := Wrap64(maxEvents * 50);
    if s < MinScanLimit then MinScanLimit else s
  }

  /** The limits of a run started at `now`.  `days` counts whole 24-hour
      days back from `now`. */
  function MakeLimits(meta: map<string, string>, now: Instant, evidencePath: string): (l: Limits)
    ensures l.maxEvents == PositiveSetting(meta, "max_events", DefaultMaxEvents) && l.maxEvents > 0
    ensures l.cutoff == AddDays(now, -PositiveSetting(meta, "days", DefaultDays))
    ensures l.scanLimit == ScanLimit(l.maxEvents)
  {
    var maxEvents := PositiveSetting(meta, "max_events", DefaultMaxEvents);
    Limits(maxEvents, AddDays(now, -PositiveSetting(meta, "days", DefaultDays)), ScanLimit(maxEvents), evidencePath)
  }

  /** The loop state: emitted events (delivered or streamed), the unknown
      and scanned counters, and whether the cutoff ended the run. */
  datatype State = State(emitted: seq<TimelineEvent>, unknown: nat, scanned: nat, done: bool)

  function CountUnknown(es: seq<TimelineEvent>): (n: nat)
    ensures n <= |es|
  {
    if |es| == 0 then 0 else CountUnknown(es[..|es| - 1]) + (if es[|es| - 1].action == "Unknown" then 1 else 0)
  }

  /** What the events of a run satisfy: no more than the event limit, no
      more than the unknown budget of unknown ids, none older than the
      cutoff, all from the event log. */
  predicate WithinLimits(es: seq<TimelineEvent>, l: Limits) {
    && |es| <= l.maxEvents
    && CountUnknown(es) <= UnknownBudget
    && forall i :: 0 <= i < |es| ==> !Before(es[i].time, l.cutoff) && es[i].source == "EventLog"
  }

  /** What holds of the state throughout a run. */
  predicate Good(st: State, l: Limits) {
    WithinLimits(st.emitted, l) && st.unknown == CountUnknown(st.emitted)
  }

  /** Keep the record's event, if it has one, unless it is unknown and the
      unknown budget is spent. */
  function Admit(st: State, out: Option<(TimelineEvent, bool)>, l: Limits): (st': State)
    requires Good(st, l) && |st.emitted| < l.maxEvents
    requires out.Some? ==> && !Before(out.value.0.time, l.cutoff) && out.value.0.source == "EventLog"
                           && (out.value.0.action == "Unknown" <==> out.value.1)
    ensures Good(st', l) && st'.scanned == st.scanned + 1 && !st'.done
    ensures HasPrefixSeq(st'.emitted, st.emitted) && |st'.emitted| <= |st.emitted| + 1
    ensures out.Some? && !(out.value.1 && st.unknown >= UnknownBudget) ==>
              st'.emitted == st.emitted + [out.value.0] && st'.unknown == st.unknown + (if out.value.1 then 1 else 0)
    ensures out.None? || (out.value.1 && st.unknown >= UnknownBudget) ==> st'.emitted == st.emitted && st'.unknown == st.unknown
  {
    match out
    case None => State(st.emitted, st.unknown, st.scanned + 1, false)
    case Some((e, unknown)) =>
      if unknown && st.unknown >= UnknownBudget then State(st.emitted, st.unknown, st.scanned + 1, false)
      else
        AdmitKeeps(st, e, unknown, l);
        State(st.emitted + [e], st.unknown + (if unknown then 1 else 0), st.scanned + 1, false)
  }

  lemma AdmitKeeps(st: State, e: TimelineEvent, unknown: bool, l: Limits)
    requires Good(st, l) && |st.emitted| < l.maxEvents
    requires !Before(e.time, l.cutoff) && e.source == "EventLog" && (e.action == "Unknown" <==> unknown)
    requires !(unknown && st.unknown >= UnknownBudget)
    ensures Good(State(st.emitted + [e], st.unknown + (if unknown then 1 else 0), st.scanned + 1, false), l)
    ensures HasPrefixSeq(st.emitted + [e], st.emitted)
  {
    AppendWithinLimits(st.emitted, e, l);
    assert (st.emitted + [e])[..|st.emitted|] == st.emitted;
  }

  /** Appending an event that is recent enough keeps a run within its
      limits, as long as there is room for it. */
  lemma AppendWithinLimits(es: seq<TimelineEvent>, e: TimelineEvent, l: Limits)
    requires WithinLimits(es, l) && |es| < l.maxEvents
    requires !Before(e.time, l.cutoff) && e.source == "EventLog"
    requires e.action == "Unknown" ==> CountUnknown(es) < UnknownBudget
    ensures CountUnknown(es + [e]) == CountUnknown(es) + (if e.action == "Unknown" then 1 else 0)
    ensures WithinLimits(es + [e], l)
  {
    assert (es + [e])[..|es|] == es;
  }

  predicate HasPrefixSeq<T(==)>(s: seq<T>, p: seq<T>) {
    |p| <= |s| && s[..|p|] == p
  }

  /** What the scan needs of the record decoder: every event it yields
      carries the record's time, comes from the event log, and is marked
      unknown exactly when its action says so. */
  ghost predicate Admissible(decode: Record -> Option<(TimelineEvent, bool)>) {
    forall r :: decode(r).Some? ==>
      && decode(r).value.0.time == FiletimeToTime(r.fileTime) && decode(r).value.0.source == "EventLog"
      && (decode(r).value.0.action == "Unknown" <==> decode(r).value.1)
  }

  /** The parser's decoder, `RecordEvent` for one evidence file; it is
      admissible. */
  function Decoder(evidencePath: string): (decode: Record -> Option<(TimelineEvent, bool)>)
    ensures Admissible(decode)
    ensures forall r :: decode(r) == RecordEvent(r, evidencePath)
  {
    var decode := r => RecordEvent(r, evidencePath);
    RecordEventAdmissible(evidencePath);
    decode
  }

  lemma RecordEventAdmissible(evidencePath: string)
    ensures Admissible(r => RecordEvent(r, evidencePath))
  {
  }

  /** Records `records[..j]`, visited from `j - 1` down to 0.  Each visit
      counts as scanned; a record older than the cutoff ends the whole run,
      and a full event limit ends the chunk.  `decode` is what a record that
      passes the checks contributes. */
  function ScanRecords(records: seq<Record>, j: nat, st: State, l: Limits,
                       decode: Record -> Option<(TimelineEvent, bool)>): (st': State)
    requires j <= |records| && Good(st, l) && !st.done && Admissible(decode)
    ensures Good(st', l) && HasPrefixSeq(st'.emitted, st.emitted)
    ensures st'.scanned <= st.scanned + j
    decreases j
  {
    if j == 0 then st
    else
      var r := records[j - 1];
      if Before(FiletimeToTime(r.fileTime), l.cutoff) then State(st.emitted, st.unknown, st.scanned + 1, true)
      else if |st.emitted| >= l.maxEvents then State(st.emitted, st.unknown, st.scanned + 1, false)
      else
        var st1 := Admit(st, decode(r), l);
        var st2 := ScanRecords(records, j - 1, st1, l, decode);
        PrefixSeqTrans(st2.emitted, st1.emitted, st.emitted);
        st2
  }

  lemma PrefixSeqTrans<T>(a: seq<T>, b: seq<T>, c: seq<T>)
    requires HasPrefixSeq(a, b) && HasPrefixSeq(b, c)
    ensures HasPrefixSeq(a, c)
  {
    assert a[..|c|] == a[..|b|][..|c|];
  }

  /** Chunks `chunks[..i]`, visited from `i - 1` down to 0.  Before each
      chunk the run stops once the limit of events is reached or more records
      than the scan limit have been visited. */
  function ScanChunks(chunks: seq<Chunk>, i: nat, st: State, l: Limits,
                      decode: Record -> Option<(TimelineEvent, bool)>): (st': State)
    requires i <= |chunks| && Good(st, l) && Admissible(decode)
    ensures Good(st', l) && HasPrefixSeq(st'.emitted, st.emitted)
    decreases i
  {
    if i == 0 || st.done || |st.emitted| >= l.maxEvents || st.scanned > l.scanLimit then st
    else match chunks[i - 1]
      case None => ScanChunks(chunks, i - 1, st, l, decode)
      case Some(records) =>
        var st1 := ScanRecords(records, |records|, st, l, decode);
        var st2 := ScanChunks(chunks, i - 1, st1, l, decode);
        PrefixSeqTrans(st2.emitted, st1.emitted, st.emitted);
        st2
  }

  /** Where the events of a run go: returned, or streamed with an empty
      response. */
  datatype Delivery = Delivery(response: ParseResponse, streamed: seq<TimelineEvent>)

  /** A whole run over the chunks, newest first, from the empty state. */
  function Scan(cs: seq<Chunk>, l: Limits, decode: Record -> Option<(TimelineEvent, bool)>): (st: State)
    requires Admissible(decode)
    ensures WithinLimits(st.emitted, l)
    ensures HasPrefixSeq(WindowEvents(NewestFirst(cs), l.maxEvents, UnknownBudget, l.cutoff, decode), st.emitted)
    ensures |NewestFirst(cs)| <= l.scanLimit ==> st.emitted == WindowEvents(NewestFirst(cs), l.maxEvents, UnknownBudget, l.cutoff, decode)
  {
    ScanFollows(cs, l, decode);
    ScanChunks(cs, |cs|, State([], 0, 0, false), l, decode)
  }

  /** A run from the empty state emits a prefix of the events of the file's
      records, newest first, up to the first one older than the cutoff and
      within the event limit and the unknown budget; all of them when the
      scan limit cannot be reached. */
  lemma ScanFollows(cs: seq<Chunk>, l: Limits, decode: Record -> Option<(TimelineEvent, bool)>)
    requires Admissible(decode)
    ensures var st := ScanChunks(cs, |cs|, State([], 0, 0, false), l, decode);
            var expected := WindowEvents(NewestFirst(cs), l.maxEvents, UnknownBudget, l.cutoff, decode);
            HasPrefixSeq(expected, st.emitted) && (|NewestFirst(cs)| <= l.scanLimit ==> st.emitted == expected)
  {
    var st0 := State([], 0, 0, false);
    var visit := NewestFirst(cs);
    var expected := WindowEvents(visit, l.maxEvents, UnknownBudget, l.cutoff, decode);
    assert Good(st0, l);
    assert cs[..|cs|] == cs;
    assert visit + [] == visit;
    assert Remaining(visit, st0, l, decode) == expected;
    assert st0.emitted + expected == expected;
    ScanChunksFollows(cs, |cs|, st0, l, decode, []);
    var st := ScanChunks(cs, |cs|, st0, l, decode);
    assert WindowEvents([], Room(st, l), BudgetLeft(st), l.cutoff, decode) == [];
    assert st.emitted + [] == st.emitted;
  }

  /** `Parse` given the chunks (or the chunk reader's error), the request
      metadata, the current time and whether a stream callback is set. */
  function Parse(chunks: Result<seq<Chunk>>, meta: map<string, string>, now: Instant, evidencePath: string,
                 streaming: bool): (r: Result<Delivery>)
    ensures chunks.Err? ==> r == Err("evtx get chunks: " + chunks.msg)
    ensures chunks.Ok? ==> r.Ok?
    ensures r.Ok? ==> WithinLimits(r.value.streamed + r.value.response.events, MakeLimits(meta, now, evidencePath))
    ensures r.Ok? && streaming ==> r.value.response.events == []
    ensures r.Ok? && !streaming ==> r.value.streamed == []
    ensures chunks.Ok? ==>
              var l := MakeLimits(meta, now, evidencePath);
              var expected := WindowEvents(NewestFirst(chunks.value), l.maxEvents, UnknownBudget, l.cutoff, Decoder(evidencePath));
              && HasPrefixSeq(expected, r.value.streamed + r.value.response.events)
              && (|NewestFirst(chunks.value)| <= l.scanLimit ==> r.value.streamed + r.value.response.events == expected)
  {
    match chunks
    case Err(e) => Err("evtx get chunks: " + e)
    case Ok(cs) => Ok(Deliver(Scan(cs, MakeLimits(meta, now, evidencePath), Decoder(evidencePath)), streaming))
  }

  /** The events of a run, returned or streamed. */
  function Deliver(st: State, streaming: bool): (d: Delivery)
    ensures d.streamed + d.response.events == st.emitted
    ensures streaming ==> d.response.events == []
    ensures !streaming ==> d.streamed == []
  {
    if streaming then
      assert st.emitted + [] == st.emitted;
      Delivery(EventsResponse([]), st.emitted)
    else
      assert [] + st.emitted == st.emitted;
      Delivery(EventsResponse(st.emitted), [])
  }

  /** The elements of `xs` from last to first. */
  function Reversed<T>(xs: seq<T>): (r: seq<T>)
    ensures |r| == |xs|
  {
    if |xs| == 0 then [] else [xs[|xs| - 1]] + Reversed(xs[..|xs| - 1])
  }

  /** The records of a chunk in visiting order: none for an unreadable
      chunk, the newest first otherwise. */
  function ChunkNewestFirst(c: Chunk): seq<Record> {
    match c
    case None => []
    case Some(records) => Reversed(records)
  }

  /** Every record of a file in the order a run visits them: the chunks
      from last to first, and within each the records from last to first. */
  function NewestFirst(cs: seq<Chunk>): seq<Record> {
    if |cs| == 0 then [] else ChunkNewestFirst(cs[|cs| - 1]) + NewestFirst(cs[..|cs| - 1])
  }

  /** The records before the first one older than the cutoff. */
  function InWindow(rs: seq<Record>, cutoff: Instant): seq<Record> {
    if |rs| == 0 || Before(FiletimeToTime(rs[0].fileTime), cutoff) then []
    else [rs[0]] + InWindow(rs[1..], cutoff)
  }

  /** The window is the longest prefix of the records none of which is older
      than the cutoff: it ends just before the first record that is. */
  lemma {:induction false} InWindowIsLongestRecentPrefix(rs: seq<Record>, cutoff: Instant)
    ensures var w := InWindow(rs, cutoff);
            && |w| <= |rs| && w == rs[..|w|]
            && (forall i :: 0 <= i < |w| ==> !Before(FiletimeToTime(w[i].fileTime), cutoff))
            && (|w| < |rs| ==> Before(FiletimeToTime(rs[|w|].fileTime), cutoff))
  {
    if |rs| > 0 && !Before(FiletimeToTime(rs[0].fileTime), cutoff) {
      InWindowIsLongestRecentPrefix(rs[1..], cutoff);
      var w := InWindow(rs[1..], cutoff);
      assert InWindow(rs, cutoff) == [rs[0]] + w;
      assert [rs[0]] + rs[1..][..|w|] == rs[..|w| + 1];
    }
  }

  /** The events that records decode to, in order. */
  function Decoded(rs: seq<Record>, decode: Record -> Option<(TimelineEvent, bool)>): seq<TimelineEvent> {
    FilterMap(rs, r => if decode(r).Some? then Some(decode(r).value.0) else None)
  }

  /** The events in order, where an unknown one is dropped once `budget`
      unknown ones have been kept. */
  function WithinBudget(es: seq<TimelineEvent>, budget: nat): seq<TimelineEvent> {
    if |es| == 0 then []
    else if es[0].action == "Unknown" && budget == 0 then WithinBudget(es[1..], 0)
    else if es[0].action == "Unknown" then [es[0]] + WithinBudget(es[1..], budget - 1)
    else [es[0]] + WithinBudget(es[1..], budget)
  }

  /** The first `n` elements, or all of them when there are fewer. */
  function Take<T>(xs: seq<T>, n: nat): seq<T> {
    if n == 0 || |xs| == 0 then [] else [xs[0]] + Take(xs[1..], n - 1)
  }

  lemma {:induction false} TakeIsPrefix<T>(xs: seq<T>, n: nat)
    ensures Take(xs, n) == if n <= |xs| then xs[..n] else xs
  {
    if n > 0 && |xs| > 0 {
      TakeIsPrefix(xs[1..], n - 1);
      assert [xs[0]] + (if n - 1 <= |xs[1..]| then xs[1..][..n - 1] else xs[1..]) == (if n <= |xs| then xs[..n] else xs);
    }
  }

  /** What a run over records in visiting order emits when the scan limit
      does not stop it: the decoded events of the records before the first
      one older than the cutoff, unknown ids only while the unknown budget
      lasts, and at most `room` events in all. */
  function WindowEvents(rs: seq<Record>, room: nat, budget: nat, cutoff: Instant,
                        decode: Record -> Option<(TimelineEvent, bool)>): seq<TimelineEvent> {
    Take(WithinBudget(Decoded(InWindow(rs, cutoff), decode), budget), room)
  }

  /** What is still to come from `rs` for a run in state `st`. */
  function Remaining(rs: seq<Record>, st: State, l: Limits, decode: Record -> Option<(TimelineEvent, bool)>): seq<TimelineEvent> {
    WindowEvents(rs, Room(st, l), BudgetLeft(st), l.cutoff, decode)
  }

  /** How many more events a run in state `st` may emit. */
  function Room(st: State, l: Limits): nat {
    if |st.emitted| <= l.maxEvents then l.maxEvents - |st.emitted| else 0
  }

  /** How many more unknown ids a run in state `st` may emit. */
  function BudgetLeft(st: State): nat {
    if st.unknown <= UnknownBudget then UnknownBudget - st.unknown else 0
  }

  /** Decoding distributes over a leading record. */
  lemma DecodedCons(r: Record, ws: seq<Record>, decode: Record -> Option<(TimelineEvent, bool)>)
    ensures Decoded([r] + ws, decode) == (if decode(r).Some? then [decode(r).value.0] else []) + Decoded(ws, decode)
  {
    assert ([r] + ws)[1..] == ws;
    assert ([r] + ws)[0] == r;
  }

  /** The events to come from a leading record that is recent enough. */
  lemma WindowEventsCons(r: Record, later: seq<Record>, room: nat, budget: nat, cutoff: Instant,
                         decode: Record -> Option<(TimelineEvent, bool)>)
    requires !Before(FiletimeToTime(r.fileTime), cutoff) && room > 0
    ensures decode(r).None? ==> WindowEvents([r] + later, room, budget, cutoff, decode) == WindowEvents(later, room, budget, cutoff, decode)
    ensures decode(r).Some? && decode(r).value.0.action == "Unknown" && budget == 0 ==>
              WindowEvents([r] + later, room, budget, cutoff, decode) == WindowEvents(later, room, budget, cutoff, decode)
    ensures decode(r).Some? && decode(r).value.0.action == "Unknown" && budget > 0 ==>
              WindowEvents([r] + later, room, budget, cutoff, decode)
              == [decode(r).value.0] + WindowEvents(later, room - 1, budget - 1, cutoff, decode)
    ensures decode(r).Some? && decode(r).value.0.action != "Unknown" ==>
              WindowEvents([r] + later, room, budget, cutoff, decode)
              == [decode(r).value.0] + WindowEvents(later, room - 1, budget, cutoff, decode)
  {
    assert ([r] + later)[1..] == later;
    var w := InWindow(later, cutoff);
    assert InWindow([r] + later, cutoff) == [r] + w;
    DecodedCons(r, w, decode);
    var tail := Decoded(w, decode);
    if decode(r).Some? {
      var e := decode(r).value.0;
      assert ([e] + tail)[1..] == tail;
      assert ([e] + tail)[0] == e;
    } else {
      assert [] + tail == tail;
    }
  }

  /** A recent record whose event is not kept leaves what is still to come
      after it. */
  lemma SkipFollows(r: Record, later: seq<Record>, st: State, st1: State, l: Limits,
                    decode: Record -> Option<(TimelineEvent, bool)>)
    requires |st.emitted| < l.maxEvents
    requires !Before(FiletimeToTime(r.fileTime), l.cutoff)
    requires decode(r).None? || (decode(r).value.0.action == "Unknown" && st.unknown >= UnknownBudget)
    requires st1.emitted == st.emitted && st1.unknown == st.unknown
    ensures st.emitted + Remaining([r] + later, st, l, decode) == st1.emitted + Remaining(later, st1, l, decode)
  {
    assert Room(st1, l) == Room(st, l) && BudgetLeft(st1) == BudgetLeft(st);
    WindowEventsCons(r, later, Room(st, l), BudgetLeft(st), l.cutoff, decode);
  }

  /** A recent record whose event is kept moves that event from what is
      still to come to what was emitted. */
  lemma KeepFollows(r: Record, later: seq<Record>, st: State, st1: State, l: Limits,
                    decode: Record -> Option<(TimelineEvent, bool)>)
    requires |st.emitted| < l.maxEvents && st.unknown <= UnknownBudget
    requires !Before(FiletimeToTime(r.fileTime), l.cutoff)
    requires decode(r).Some? && !(decode(r).value.0.action == "Unknown" && st.unknown >= UnknownBudget)
    requires st1.emitted == st.emitted + [decode(r).value.0]
    requires st1.unknown == st.unknown + (if decode(r).value.0.action == "Unknown" then 1 else 0)
    ensures st.emitted + Remaining([r] + later, st, l, decode) == st1.emitted + Remaining(later, st1, l, decode)
  {
    var e := decode(r).value.0;
    var rest := Remaining(later, st1, l, decode);
    assert Room(st1, l) == Room(st, l) - 1;
    assert BudgetLeft(st1) == if e.action == "Unknown" then BudgetLeft(st) - 1 else BudgetLeft(st);
    WindowEventsCons(r, later, Room(st, l), BudgetLeft(st), l.cutoff, decode);
    assert (st.emitted + [e]) + rest == st.emitted + ([e] + rest);
  }

  /** Visiting a record that is recent enough, with room left, moves its
      event, if it is kept, from what is still to come to what was emitted. */
  lemma AdmitFollows(r: Record, later: seq<Record>, st: State, l: Limits,
                     decode: Record -> Option<(TimelineEvent, bool)>)
    requires Good(st, l) && |st.emitted| < l.maxEvents && Admissible(decode)
    requires !Before(FiletimeToTime(r.fileTime), l.cutoff)
    ensures st.emitted + Remaining([r] + later, st, l, decode)
            == Admit(st, decode(r), l).emitted + Remaining(later, Admit(st, decode(r), l), l, decode)
  {
    var st1 := Admit(st, decode(r), l);
    if decode(r).Some? && !(decode(r).value.1 && st.unknown >= UnknownBudget) {
      KeepFollows(r, later, st, st1, l, decode);
    } else {
      SkipFollows(r, later, st, st1, l, decode);
    }
  }

  /** A record older than the cutoff, or a full run, leaves nothing to come. */
  lemma NothingRemains(r: Record, later: seq<Record>, st: State, l: Limits,
                       decode: Record -> Option<(TimelineEvent, bool)>)
    requires Before(FiletimeToTime(r.fileTime), l.cutoff) || |st.emitted| >= l.maxEvents
    ensures Remaining([r] + later, st, l, decode) == []
  {
  }

  /** Scanning the records of one chunk emits what is still to come from
      them, in order; unless the run ended or filled up, what comes after
      them is still to come. */
  lemma {:induction false} ScanRecordsFollows(records: seq<Record>, j: nat, st: State, l: Limits,
                                              decode: Record -> Option<(TimelineEvent, bool)>, later: seq<Record>)
    requires j <= |records| && Good(st, l) && !st.done && Admissible(decode)
    ensures var st' := ScanRecords(records, j, st, l, decode);
            if st'.done || |st'.emitted| >= l.maxEvents
            then st'.emitted == st.emitted + Remaining(Reversed(records[..j]) + later, st, l, decode)
            else st.emitted + Remaining(Reversed(records[..j]) + later, st, l, decode)
                 == st'.emitted + Remaining(later, st', l, decode)
    decreases j
  {
    if j == 0 {
      assert Reversed(records[..0]) + later == later;
      if |st.emitted| >= l.maxEvents {
        assert Remaining(later, st, l, decode) == [];
      }
    } else {
      var r := records[j - 1];
      assert records[..j][..j - 1] == records[..j - 1];
      var rest := Reversed(records[..j - 1]) + later;
      assert Reversed(records[..j]) + later == [r] + rest;
      if Before(FiletimeToTime(r.fileTime), l.cutoff) || |st.emitted| >= l.maxEvents {
        NothingRemains(r, rest, st, l, decode);
      } else {
        var st1 := Admit(st, decode(r), l);
        AdmitFollows(r, rest, st, l, decode);
        ScanRecordsFollows(records, j - 1, st1, l, decode, later);
      }
    }
  }

  /** Scanning chunks emits a prefix of what is still to come from their
      records, newest first; when the scan limit cannot be reached it emits
      exactly that, and what comes after them is still to come unless the run
      ended or filled up. */
  lemma {:induction false} ScanChunksFollows(chunks: seq<Chunk>, i: nat, st: State, l: Limits,
                                             decode: Record -> Option<(TimelineEvent, bool)>, later: seq<Record>)
    requires i <= |chunks| && Good(st, l) && !st.done && Admissible(decode)
    ensures var st' := ScanChunks(chunks, i, st, l, decode);
            HasPrefixSeq(st.emitted + Remaining(NewestFirst(chunks[..i]) + later, st, l, decode), st'.emitted)
    ensures var st' := ScanChunks(chunks, i, st, l, decode);
            st.scanned + |NewestFirst(chunks[..i])| <= l.scanLimit ==>
            if st'.done || |st'.emitted| >= l.maxEvents
            then st'.emitted == st.emitted + Remaining(NewestFirst(chunks[..i]) + later, st, l, decode)
            else st.emitted + Remaining(NewestFirst(chunks[..i]) + later, st, l, decode)
                 == st'.emitted + Remaining(later, st', l, decode)
    decreases i, 2
  {
    if i == 0 || |st.emitted| >= l.maxEvents || st.scanned > l.scanLimit {
      StoppedChunksFollow(chunks, i, st, l, decode, later);
    } else {
      match chunks[i - 1]
      case None =>
        UnreadableChunkFollows(chunks, i, st, l, decode, later);
      case Some(records) =>
        ReadableChunkFollows(chunks, i, records, st, l, decode, later);
    }
  }

  /** `ScanChunksFollows` when no chunk is left or the scan has stopped. */
  lemma StoppedChunksFollow(chunks: seq<Chunk>, i: nat, st: State, l: Limits,
                            decode: Record -> Option<(TimelineEvent, bool)>, later: seq<Record>)
    requires i <= |chunks| && Good(st, l) && !st.done && Admissible(decode)
    requires i == 0 || |st.emitted| >= l.maxEvents || st.scanned > l.scanLimit
    ensures var st' := ScanChunks(chunks, i, st, l, decode);
            HasPrefixSeq(st.emitted + Remaining(NewestFirst(chunks[..i]) + later, st, l, decode), st'.emitted)
    ensures var st' := ScanChunks(chunks, i, st, l, decode);
            st.scanned + |NewestFirst(chunks[..i])| <= l.scanLimit ==>
            if st'.done || |st'.emitted| >= l.maxEvents
            then st'.emitted == st.emitted + Remaining(NewestFirst(chunks[..i]) + later, st, l, decode)
            else st.emitted + Remaining(NewestFirst(chunks[..i]) + later, st, l, decode)
                 == st'.emitted + Remaining(later, st', l, decode)
  {
    var visit := NewestFirst(chunks[..i]) + later;
    assert ScanChunks(chunks, i, st, l, decode) == st;
    if i == 0 {
      assert visit == later;
    }
    if |st.emitted| >= l.maxEvents {
      assert Remaining(visit, st, l, decode) == [];
    }
  }

  /** `ScanChunksFollows` when the last chunk to visit could not be read. */
  lemma {:induction false} UnreadableChunkFollows(chunks: seq<Chunk>, i: nat, st: State, l: Limits,
                                                  decode: Record -> Option<(TimelineEvent, bool)>, later: seq<Record>)
    requires 0 < i <= |chunks| && chunks[i - 1].None?
    requires Good(st, l) && !st.done && Admissible(decode)
    requires |st.emitted| < l.maxEvents && st.scanned <= l.scanLimit
    ensures var st' := ScanChunks(chunks, i, st, l, decode);
            HasPrefixSeq(st.emitted + Remaining(NewestFirst(chunks[..i]) + later, st, l, decode), st'.emitted)
    ensures var st' := ScanChunks(chunks, i, st, l, decode);
            st.scanned + |NewestFirst(chunks[..i])| <= l.scanLimit ==>
            if st'.done || |st'.emitted| >= l.maxEvents
            then st'.emitted == st.emitted + Remaining(NewestFirst(chunks[..i]) + later, st, l, decode)
            else st.emitted + Remaining(NewestFirst(chunks[..i]) + later, st, l, decode)
                 == st'.emitted + Remaining(later, st', l, decode)
    decreases i, 0
  {
    assert chunks[..i][..i - 1] == chunks[..i - 1];
    assert NewestFirst(chunks[..i]) + later == NewestFirst(chunks[..i - 1]) + later;
    assert ScanChunks(chunks, i, st, l, decode) == ScanChunks(chunks, i - 1, st, l, decode);
    ScanChunksFollows(chunks, i - 1, st, l, decode, later);
  }

  /** `ScanChunksFollows` when the last chunk to visit is readable. */
  lemma {:induction false} ReadableChunkFollows(chunks: seq<Chunk>, i: nat, records: seq<Record>, st: State, l: Limits,
                                                decode: Record -> Option<(TimelineEvent, bool)>, later: seq<Record>)
    requires 0 < i <= |chunks| && chunks[i - 1] == Some(records)
    requires Good(st, l) && !st.done && Admissible(decode)
    requires |st.emitted| < l.maxEvents && st.scanned <= l.scanLimit
    ensures var st' := ScanChunks(chunks, i, st, l, decode);
            HasPrefixSeq(st.emitted + Remaining(NewestFirst(chunks[..i]) + later, st, l, decode), st'.emitted)
    ensures var st' := ScanChunks(chunks, i, st, l, decode);
            st.scanned + |NewestFirst(chunks[..i])| <= l.scanLimit ==>
            if st'.done || |st'.emitted| >= l.maxEvents
            then st'.emitted == st.emitted + Remaining(NewestFirst(chunks[..i]) + later, st, l, decode)
            else st.emitted + Remaining(NewestFirst(chunks[..i]) + later, st, l, decode)
                 == st'.emitted + Remaining(later, st', l, decode)
    decreases i, 1
  {
    var st1 := ScanRecords(records, |records|, st, l, decode);
    if st1.done || |st1.emitted| >= l.maxEvents {
      ChunkEndsRun(chunks, i, records, st, l, decode, later);
    } else {
      ChunkAfterReadable(chunks, i, records, st, l, decode, later);
    }
  }

  /** The records of the last chunk to visit come first, newest first. */
  lemma ReadableChunkVisit(chunks: seq<Chunk>, i: nat, records: seq<Record>, later: seq<Record>)
    requires 0 < i <= |chunks| && chunks[i - 1] == Some(records)
    ensures NewestFirst(chunks[..i]) + later == Reversed(records[..|records|]) + (NewestFirst(chunks[..i - 1]) + later)
  {
    assert chunks[..i][..i - 1] == chunks[..i - 1];
    assert records[..|records|] == records;
  }

  /** `ReadableChunkFollows` when the run ends inside the chunk's records. */
  lemma ChunkEndsRun(chunks: seq<Chunk>, i: nat, records: seq<Record>, st: State,
                     l: Limits, decode: Record -> Option<(TimelineEvent, bool)>, later: seq<Record>)
    requires 0 < i <= |chunks| && chunks[i - 1] == Some(records)
    requires Good(st, l) && !st.done && Admissible(decode)
    requires |st.emitted| < l.maxEvents && st.scanned <= l.scanLimit
    requires var st1 := ScanRecords(records, |records|, st, l, decode); st1.done || |st1.emitted| >= l.maxEvents
    ensures var st' := ScanChunks(chunks, i, st, l, decode);
            HasPrefixSeq(st.emitted + Remaining(NewestFirst(chunks[..i]) + later, st, l, decode), st'.emitted)
    ensures var st' := ScanChunks(chunks, i, st, l, decode);
            st.scanned + |NewestFirst(chunks[..i])| <= l.scanLimit ==>
            if st'.done || |st'.emitted| >= l.maxEvents
            then st'.emitted == st.emitted + Remaining(NewestFirst(chunks[..i]) + later, st, l, decode)
            else st.emitted + Remaining(NewestFirst(chunks[..i]) + later, st, l, decode)
                 == st'.emitted + Remaining(later, st', l, decode)
  {
    var st1 := ScanRecords(records, |records|, st, l, decode);
    ReadableChunkVisit(chunks, i, records, later);
    ScanRecordsFollows(records, |records|, st, l, decode, NewestFirst(chunks[..i - 1]) + later);
    assert ScanChunks(chunks, i, st, l, decode) == st1;
    assert st1.emitted == st.emitted + Remaining(NewestFirst(chunks[..i]) + later, st, l, decode);
    assert st1.emitted[..|st1.emitted|] == st1.emitted;
  }

  /** `ReadableChunkFollows` when the run goes on past the chunk's records:
      the rest is the earlier chunks scanned from the state the records left. */
  lemma {:induction false} ChunkAfterReadable(chunks: seq<Chunk>, i: nat, records: seq<Record>, st: State,
                                              l: Limits, decode: Record -> Option<(TimelineEvent, bool)>, later: seq<Record>)
    requires 0 < i <= |chunks| && chunks[i - 1] == Some(records)
    requires Good(st, l) && !st.done && Admissible(decode)
    requires |st.emitted| < l.maxEvents && st.scanned <= l.scanLimit
    requires var st1 := ScanRecords(records, |records|, st, l, decode); !st1.done && |st1.emitted| < l.maxEvents
    ensures var st' := ScanChunks(chunks, i, st, l, decode);
            HasPrefixSeq(st.emitted + Remaining(NewestFirst(chunks[..i]) + later, st, l, decode), st'.emitted)
    ensures var st' := ScanChunks(chunks, i, st, l, decode);
            st.scanned + |NewestFirst(chunks[..i])| <= l.scanLimit ==>
            if st'.done || |st'.emitted| >= l.maxEvents
            then st'.emitted == st.emitted + Remaining(NewestFirst(chunks[..i]) + later, st, l, decode)
            else st.emitted + Remaining(NewestFirst(chunks[..i]) + later, st, l, decode)
                 == st'.emitted + Remaining(later, st', l, decode)
    decreases i, 0
  {
    var st1 := ScanRecords(records, |records|, st, l, decode);
    ReadableChunkVisit(chunks, i, records, later);
    ScanRecordsFollows(records, |records|, st, l, decode, NewestFirst(chunks[..i - 1]) + later);
    assert ScanChunks(chunks, i, st, l, decode) == ScanChunks(chunks, i - 1, st1, l, decode);
    assert |NewestFirst(chunks[..i])| == |records| + |NewestFirst(chunks[..i - 1])|;
    ScanChunksFollows(chunks, i - 1, st1, l, decode, later);
  }

  /** When the newest record of the file is older than the cutoff, nothing
      is emitted. */
  lemma NewestTooOldMeansEmpty(cs: seq<Chunk>, l: Limits, decode: Record -> Option<(TimelineEvent, bool)>)
    requires Admissible(decode) && |NewestFirst(cs)| > 0
    requires Before(FiletimeToTime(NewestFirst(cs)[0].fileTime), l.cutoff)
    ensures Scan(cs, l, decode).emitted == []
  {
    assert InWindow(NewestFirst(cs), l.cutoff) == [];
  }

  /** Once more records than the scan limit have been visited, the remaining
      chunks are not read. */
  lemma ScanLimitStops(chunks: seq<Chunk>, i: nat, st: State, l: Limits, decode: Record -> Option<(TimelineEvent, bool)>)
    requires i <= |chunks| && Good(st, l) && st.scanned > l.scanLimit && Admissible(decode)
    ensures ScanChunks(chunks, i, st, l, decode) == st
  {
  }
}
