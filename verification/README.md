# gtrace triage core in Dafny

gtrace is a Windows forensic triage tool. It takes evidence files: event logs (EVTX), registry hives (SYSTEM, SAM, NTUSER.DAT, Amcache.hve), prefetch files, scheduled-task XML, jump lists, LNK files and a process-list CSV. It also takes the output of live commands (netstat, arp, ipconfig) and browser history. It turns each of these into timeline events, runs detection rules and analyzers over them, and stores the result for a case.

This project models the per-event logic of that pipeline as pure functions over inputs that are already decoded. It proves what that logic promises.

The modules follow the program's structure:

- `Writer` is the timeline writer loop (`internal/engine/pipeline.go`).
  - It is modelled as a sequential fold over received events.
  - The fold applies a global cap, a 60% cap per bulk category, and the detection mark-up.
  - The 60% share is computed as Go computes it, on a 64-bit `int` that wraps around, so a huge `max_events` gives a negative share.
- `Dispatch` covers the parser registry and first-match dispatch, source inference, system-hive naming, and the path fix-ups of returned and streamed events.
- `LiveTriage` covers component selection and the candidate list of a live triage.
- One module per parser: `Evtx`, `Sam`, `UserAssist`, `TaskXml`, `Prefetch`, `Amcache`, `ShimCache`, `Jumplist`, `Wintri`, `LnkStub`, `Network` and `Browser`.
  - Each models the parser's `CanParse` test and its record logic.
  - The third-party decoder each one relies on becomes an abstract input.
  - Registry hives are a tree of keys (`Hive`).
- `Text` and `TimeConv` hold the shared helpers of `internal/plugin/utils.go`:
  - FILETIME conversion, per section 2.3.3 of [MS-DTYP];
  - UTF-16LE decoding, per section 2.2 of RFC 2781;
  - string cleaning;
  - WebKit time conversion.
- `Sigma` is the rule engine (`EngineV2`): its field aliases, its event category, per-category buckets and first match. The six bundled rules are data, read with the subset of the Sigma detection language they use. `LegacyRules` holds the eight hand-written rules.
- `Analyzers` holds the temp-path and execution-anomaly analyzers and the order in which their findings are saved. `Ioc` is the IOC matcher.
- `MemStore` is the in-memory placeholder store. `FileStore` covers the case path of the file store, the line framing of its timeline file, and the timeline search with its pagination.
- `Runner` is the in-memory job runner, as map state.

Support modules:

- `GoStr` defines the Go string functions used, with strings as byte strings.
- `Model` defines the records of `pkg/model`.
- `Wrappers` and `Seqs` hold `Option`/`Result` and a filter-map over sequences.

Several things outside the model become parameters: the wall clock (`now`), JSON decoding of a timeline line, `time.Parse`, `url.Parse`, and the decoders of EVTX chunks, hives, prefetch files, OLE compound files and shell links.

## Model

| member | source | states |
|---|---|---|
| Writer.GlobalMaxEvents | internal/engine/pipeline.go:252-260 | the limit is always positive and is 100000 when `max_events` is absent |
| Writer.GlobalMaxEventsReadsBack | internal/engine/pipeline.go:253-258 | a positive `max_events` is read back as itself; zero or a negative value falls back to 100000 |
| Writer.Classify | internal/engine/pipeline.go:296-304 | EventLog iff the source is "EventLog" up to case; Registry and Prefetch only when the source or artifact names them; Other iff none of the three tests holds |
| Writer.Annotate | internal/engine/pipeline.go:323-338 | a match sets `_Alert`, `_AlertLevel`, `_AlertRuleID` and `_AlertDescription` from the rule, and `_Mitre` (the tags joined with ", ") only when there are tags; every other key and every other field is unchanged; no match changes nothing |
| Writer.AnnotateKeepsCategory | internal/engine/pipeline.go:296-338 | marking an event never moves it to another fairness category |
| Writer.Detect | internal/engine/pipeline.go:323-324 | only event-log and registry events are ever evaluated, and for those the result is the engine's first match |
| Writer.StepKeeps | internal/engine/pipeline.go:306-346 | one received event keeps the counter invariant; it is admitted iff it is not bulk or the total is under the limit and its category under the share; an admitted event is appended, marked by the engine's first match when it is an event-log or registry event, and a refused one leaves the state unchanged |
| Writer.Write | internal/engine/pipeline.go:295-350 | the written events are an order-preserving selection of the received ones (each possibly marked), every non-bulk event is written, and the counters count what was written |
| Writer.QuotaBounds | internal/engine/pipeline.go:307-318 | written bulk events never exceed the limit; while six times the limit fits in int64 no bulk category exceeds limit*6/10; when the int64 share is not positive no bulk event is written |
| Writer.Share | internal/engine/pipeline.go:315 | the share is limit*6/10 while the product fits in int64, is never positive when the int64 product wraps negative, and is always an int64 |
| Writer.LargeLimitShareIsNegative | internal/engine/pipeline.go:315 | a `max_events` of 2*10^18 is a valid int64, and its share is -644674407370955161 |
| Writer.LargeLimitDropsAllBulk | internal/engine/pipeline.go:307-318 | with `max_events` 2*10^18 no bulk event is ever written |
| Writer.LimitOneAdmitsNoBulk | internal/engine/pipeline.go:315 | with `max_events` 1 the share is 0, so no bulk event is ever written |
| Writer.FairnessScenario | tools/verify_logic/main.go:59-100 | at limit 10, eight event-log, three registry and two other events yield six event-log, three registry and both other events |
| Writer.WriteSnoc | internal/engine/pipeline.go:295-350 | writing one more received event is one more loop step on the state the earlier events left |
| Dispatch.FindFrom | internal/engine/pipeline.go:677-684 | the result is the first position from the start index whose element is accepted; None iff no element is accepted |
| Dispatch.FindParser | internal/engine/pipeline.go:677-684 | the chosen parser accepts the file, every earlier parser declines it, and there is no parser iff all decline |
| Dispatch.SecondTaskParserUnreachable | internal/plugin/registry.go:26-27 | the second task-XML registration is never chosen |
| Dispatch.LnkStubTakesPrecedence | internal/plugin/registry.go:19 | a file goes to the LNK stub iff the LNK stub accepts it, whatever else would |
| Dispatch.EvtxChosenWhenEarlierDecline | internal/plugin/registry.go:18-30 | an EVTX file that the nine earlier parsers decline is given to the EVTX parser |
| Dispatch.InferSource | internal/engine/pipeline.go:686-704 | the tests run in a fixed order: EventLog iff the lower-cased extension is ".evtx", else Prefetch iff it is ".pf", else Amcache for the base name AMCACHE.HVE, else Registry for the five hive names, else Tasks when the path contains "Tasks", else File |
| Dispatch.InferredEventLogIsEvtx | internal/engine/pipeline.go:686-692 | a path whose extension is ".evtx" in any case is inferred to be an event log, and the EVTX parser accepts it |
| Dispatch.InferredPrefetchIsPrefetch | internal/engine/pipeline.go:693-694 | a path whose extension is ".pf" in any case is inferred to be prefetch, and with a header of at least 8 bytes the prefetch parser accepts it |
| Dispatch.HiveKey | internal/engine/pipeline.go:660-674 | a recognised base name maps to one of the four `HKLM\` keys |
| Dispatch.HiveSpelling | internal/engine/pipeline.go:660-674 | a base name is a hive iff it is SYSTEM, SOFTWARE, SAM or SECURITY in all capitals or all small letters, and the key is `HKLM\` followed by the upper-cased name |
| Dispatch.MixedCaseIsNoHive | internal/engine/pipeline.go:660-674 | "System", "Sam" and "Software" are not dumped as hives |
| Dispatch.FixBatchEvent | internal/engine/pipeline.go:626-634 | a returned event read from a temporary copy points at the original file, keeps a non-generic source, gets the inferred source otherwise, and keeps every other field |
| Dispatch.FixBatchIdempotent | internal/engine/pipeline.go:626-634 | the fix-up applied twice is the fix-up applied once |
| Dispatch.FixStreamEvent | internal/engine/pipeline.go:583-597 | without a temporary copy only a dump-file artifact name is replaced |
| Dispatch.StreamAgreesWithBatch | internal/engine/pipeline.go:583-597 | with a temporary copy, streamed events are fixed exactly as returned ones are |
| Dispatch.FixResponse | internal/engine/pipeline.go:621-635 | every returned event and artifact points at the original file and the counts are unchanged |
| Dispatch.ProcessFile | internal/engine/pipeline.go:555-637 | an unreadable file and a file no parser accepts both give nothing and no error; otherwise the first accepting parser's result is returned, fixed up when a temporary copy was read |
| LiveTriage.IsEnabled | internal/engine/pipeline.go:116-128 | no selection enables everything; a selection enables a component iff some selected name equals it up to case |
| LiveTriage.SearchPaths | internal/engine/pipeline.go:130-190 | an empty selection gives no path; the network path is present when Network is enabled, and LIVE_HKCU iff Registry is enabled (when no globbed path is spelled like a virtual name) |
| LiveTriage.CandidateFiles | internal/engine/pipeline.go:192-221 | the candidates are exactly what the search paths contribute: every candidate comes from some search path, and every virtual name, existing file and file of an existing directory among the search paths is a candidate |
| LiveTriage.Expand | internal/engine/pipeline.go:193-220 | a virtual name is itself a candidate; a missing path gives none, a regular file itself, and a directory its files |
| LiveTriage.CandidateFilesSnoc | internal/engine/pipeline.go:193-220 | the search paths are walked in order: one more path adds its contribution at the end |
| LiveTriage.Candidates | internal/engine/pipeline.go:223-226 | the error is returned exactly when there are no candidates |
| LiveTriage.EmptySelectionFails | internal/engine/pipeline.go:116-128 | a non-nil empty selection collects nothing and fails |
| LiveTriage.NetworkSelectedSucceeds | internal/engine/pipeline.go:182-184 | selecting Network always yields at least the network candidate |
| Evtx.ExtractFileName | internal/plugin/evtx.go:20-30 | the result ends the path; it holds no backslash when the path has one, no slash when the path has only slashes, and is the whole path otherwise |
| Evtx.BackslashFirst | internal/plugin/evtx.go:20-30 | the backslash is searched first, so in "a\b/c" the name is "b/c" |
| Evtx.Category | internal/plugin/evtx.go:179-202 | the category is one of seven names, and "Process" exactly for 4688 and 4689 |
| Evtx.ApplyPairs | internal/plugin/evtx.go:472-481 | the keys are the old ones plus the prefixed entry keys, untouched keys keep their values, and the last entry wins |
| Evtx.BaseDetails | internal/plugin/evtx.go:436-481 | Category and EventID are always present, Level whenever the level is positive |
| Evtx.LevelDetails | internal/plugin/evtx.go:448-470 | a positive level is kept as a detail, and levels 1, 2 and 3 add `_AlertLevel` Critical, High and Medium |
| Evtx.KerberosAlert | internal/plugin/evtx.go:516-523 | a 4768 or 4769 request with ticket type exactly "0x17" or "23" gets the RC4 alert; anything else is unchanged |
| Evtx.ProcessDetails | internal/plugin/evtx.go:538-551 | only 4688 is enriched: `_CommandLine` when CommandLine is neither empty nor "-", `_ParentProcess` as the parent's file name, every other key unchanged |
| Evtx.EventDetails | internal/plugin/evtx.go:516-551 | an RC4 alert set on a ticket request survives the user-data and process enrichment |
| Evtx.ShortenObjectName | internal/plugin/evtx.go:579-588 | a name longer than 60 bytes becomes "..." and its last 57 bytes, 60 in all; shorter names are kept |
| Evtx.FirstNonEmpty | internal/plugin/evtx.go:560-577 | the result is empty iff every key is missing or empty, and otherwise is the value of the first key whose value is non-empty |
| Evtx.Subject | internal/plugin/evtx.go:535-594 | the process name for 4688/4689, else the first non-empty of TaskName, ServiceName, TargetUserName, else the shortened ObjectName (at most 60 bytes), else SubjectUserName unless it is "-" |
| Evtx.OwnSubject | internal/plugin/evtx.go:538-558 | 4688 names the file of NewProcessName, 4689 the base of ProcessName, other ids nothing |
| Evtx.RecordEvent | internal/plugin/evtx.go:304-613 | a record yields an event iff it decoded and is not noise; the event has the record's time, source EventLog, the file's base name as artifact, the description of known ids and "Unknown" exactly for unknown ones |
| Evtx.Describe | internal/plugin/evtx.go:58-176 | an id has a description iff it is in the table, and no description is "Unknown" |
| Evtx.KnownNamesAreNotUnknown | internal/plugin/evtx.go:58-176 | no interesting event is described as "Unknown", so the action tells unknown ids apart |
| Evtx.WeakTicketFlagged | internal/plugin/evtx.go:483-523 | a 4768 or 4769 record with ticket encryption type "0x17" or "23" is not noise, and its details carry the weak RC4 alert whatever its user data holds |
| Evtx.NoiseSpendsNothing | internal/plugin/evtx.go:483-514 | a noise record is counted as scanned but adds no event and spends none of the 1000 unknown ids |
| Evtx.PositiveSetting | internal/plugin/evtx.go:224-236 | the metadata value when it parses to a positive integer, else the default; always positive |
| Evtx.ScanLimit | internal/plugin/evtx.go:245-248 | fifty times the event limit, but never below 500000 |
| Evtx.MakeLimits | internal/plugin/evtx.go:222-248 | the event limit defaults to 100000, the cutoff lies `days` (default 3650) days before now, and the scan limit follows the event limit |
| Evtx.Admit | internal/plugin/evtx.go:507-614 | keeping a record's event keeps every limit and counts the record as scanned; a decoded event is appended (and counted as unknown when it is) unless it is unknown and 1000 unknown ids were already kept, in which case nothing changes |
| Evtx.AppendWithinLimits | internal/plugin/evtx.go:507-514 | appending an admissible event keeps the run within its limits and counts an unknown id once |
| Evtx.ScanRecords | internal/plugin/evtx.go:290-305 | the run keeps its limits, only appends, and counts at most one scan per record |
| Evtx.ScanChunks | internal/plugin/evtx.go:251-289 | the run keeps its limits and only appends |
| Evtx.Scan | internal/plugin/evtx.go:240-306 | the events emitted are a prefix of the reference run (records newest first, cut at the first one older than the cutoff, decoded, unknown ids past 1000 dropped, at most maxEvents), and all of it while the file has no more records than the scan limit; every event is within the limits |
| Evtx.Parse | internal/plugin/evtx.go:204-621 | a chunk error is "evtx get chunks: " and its message; otherwise the events, streamed or returned but never both, are a prefix of the reference run over the file's records, and all of it within the scan limit |
| Evtx.Deliver | internal/plugin/evtx.go:609-620 | with a callback every event is streamed and none returned; without one every event is returned |
| Evtx.NewestTooOldMeansEmpty | internal/plugin/evtx.go:297-302 | when the newest record of the newest readable chunk is older than the cutoff the run yields nothing |
| Evtx.ScanLimitStops | internal/plugin/evtx.go:258-262 | once more records than the scan limit have been visited no further chunk is read |
| Evtx.InWindowIsLongestRecentPrefix | internal/plugin/evtx.go:297-302 | the records a run can reach are the longest prefix of the newest-first records none of which is older than the cutoff |
| Evtx.AdmitFollows | internal/plugin/evtx.go:507-614 | what was emitted plus what the reference run still promises is unchanged by admitting one in-window record |
| Evtx.ScanRecordsFollows | internal/plugin/evtx.go:290-305 | visiting a chunk's records last to first either ends the run with exactly the reference events, or leaves emitted-plus-remaining unchanged |
| Evtx.ScanChunksFollows | internal/plugin/evtx.go:251-305 | visiting the chunks last to first emits a prefix of the reference events, and exactly them while the scan limit is not passed |
| Evtx.ScanFollows | internal/plugin/evtx.go:240-306 | a whole run from the empty state emits a prefix of the reference run over the newest-first records, and all of it within the scan limit |
| Amcache.FileKey | internal/plugin/amcache.go:57-66 | `Root\File` when it exists, else `Root\InventoryApplicationFile` |
| Amcache.Fields | internal/plugin/amcache.go:77-94 | the path comes from a value named "15" and the SHA-1 from one named "101" with a single leading "0000" removed, and each stays at its default when no such value decodes; which value wins is stated by `Amcache.FieldsLastPath` and `Amcache.FieldsLastSha1` |
| Amcache.FieldsAppend | internal/plugin/amcache.go:77-94 | the value loop is a left fold: reading two runs of values in turn is reading the second from the fields the first leaves |
| Amcache.FieldsLastPath | internal/plugin/amcache.go:80-86 | the path is the text of the last value "15" whose data decodes; later values of that name that fail to decode change nothing |
| Amcache.FieldsLastSha1 | internal/plugin/amcache.go:87-92 | the SHA-1 is the text of the last value "101" whose data decodes, with one leading "0000" removed |
| Amcache.FileEvent | internal/plugin/amcache.go:96-117 | a file key yields an event iff its path is non-empty; the event carries the key's last-write time, source "amcache", action EXECUTION_EVIDENCE and the path as subject and detail |
| Amcache.VolumeEvents | internal/plugin/amcache.go:70-119 | the events are the file-key events of the volumes' file keys, in order, one per key with a path |
| Amcache.Parse | internal/plugin/amcache.go:57-124 | the error "Amcache File key not found" is returned exactly when neither key exists; otherwise the events are the file-key events of the subkeys of the key found, in order |
| ShimCache.CacheKey | internal/plugin/shimcache.go:60-65 | the ControlSet001 key when it exists, else the ControlSet002 one |
| ShimCache.CacheData | internal/plugin/shimcache.go:70-76 | the data of a value named exactly "AppCompatCache" |
| ShimCache.EntryEvent | internal/plugin/shimcache.go:87-107 | an entry yields an event iff its name is non-empty, with the name as subject and `path`, and `key` "AppCompatCache" |
| ShimCache.Parse | internal/plugin/shimcache.go:60-112 | "AppCompatCache key not found" when neither control set has the key, "AppCompatCache value missing" when the value is absent, otherwise the entry events of the decoded entries, in order |
| Hive.Child | internal/plugin/sam.go:77-83 | the subkey found has the name asked for up to case, and none is found only when no subkey has it |
| Hive.OpenKey | internal/plugin/amcache.go:59-62 | the key reached by a path has the last component's name up to case; the empty path is the root |
| Hive.LastValueNamed | internal/plugin/sam.go:111-119 | the value found is the last one whose name matches up to case |
| Hive.FirstValueExact | internal/plugin/shimcache.go:70-76 | the value found has exactly the name asked for, and none is found only when no value has it |
| Sam.CanParseIff | internal/plugin/sam.go:36-50 | a file is accepted iff its header starts "regf" and its upper-cased path contains "SAM" |
| Sam.FindUsers | internal/plugin/sam.go:64-99 | the key found is a "Users" key with a "Names" child somewhere in the tree, and none is found only when the tree has no such key |
| Sam.FirstAccount | internal/plugin/sam.go:64-99 | the first key of a list that is a Users key with a Names child, and none only when no key of the list is one |
| Sam.FindUsersIsFirstInPreOrder | internal/plugin/sam.go:64-99 | the search finds the first such key in depth-first pre-order of the tree |
| Sam.DecodeUser | internal/plugin/sam.go:104-180 | a user is skipped iff it is "Names", lacks F or V, or F is under 48 bytes or V under 0x20; otherwise its times come from F at 8 and 24, disabled from bit 0 of the ACB, and its names from V (with "Unknown" and "" when out of range) |
| Sam.NameFieldAsWritten | internal/plugin/sam.go:165-171 | the slice can panic only when offset, bias and length add up past 2^32; a wrap of the offset alone reads the wrong bytes instead (`Sam.NameOffsetWrapMisreads`) |
| Sam.NameField | internal/plugin/sam.go:165-180 | the name is read iff its whole range lies inside V, compared without wrap-around |
| Sam.NameFieldAgreesWithoutWrap | internal/plugin/sam.go:165-180 | while the 32-bit sum does not wrap, the code as written and the checked reading agree |
| Sam.NameCheckWraps | internal/plugin/sam.go:165-170 | a V whose name offset plus length wraps past 2^32 passes the check as written and then slices out of range |
| Sam.NameOffsetWrapMisreads | internal/plugin/sam.go:165-170 | a V whose name offset plus the 0xCC bias wraps to 0x0C, with length 4, passes the check as written and reads the name from the offset field's own bytes, while the unbounded check refuses it |
| Sam.AccountDetails | internal/plugin/sam.go:183-202 | `_Alert` iff RID 501 is enabled; `_Info` naming the account iff RID 500 is not called "administrator" in any case; RID and Username always present |
| Sam.AccountEvent | internal/plugin/sam.go:204-237 | the last logon time and "User Last Logon" when that time is set and not before 1970, else the password time and "User Password Set"; source SAM, subject the user name |
| Sam.UserEvent | internal/plugin/sam.go:104-237 | a user yields an event iff it decodes |
| Sam.Parse | internal/plugin/sam.go:95-243 | "SAM Users key not found" exactly when the tree has no Users key with a Names child; otherwise the user events of the subkeys of the key found, in order, one per subkey that decodes |
| Sam.WellKnownRids | internal/plugin/sam.go:192-202 | the key names 000001F4 and 000001F5 read as RIDs 500 and 501 |
| Jumplist.HeaderIgnored | internal/plugin/jumplist.go:36-41 | acceptance depends on the name alone |
| Jumplist.Target | internal/plugin/jumplist.go:94-104 | the cleaned local base path, or the cleaned relative path when the base path is empty; never starts or ends with white space |
| Jumplist.NulBasePathHidesRelative | internal/plugin/jumplist.go:94-104 | a base path of one NUL byte is non-empty, so the relative path is not consulted, and cleaning leaves no target |
| Jumplist.EntryLnk | internal/plugin/jumplist.go:59-86 | only stream entries that open, hold at least 76 bytes and parse as a shell link give a link |
| Jumplist.EntryEvent | internal/plugin/jumplist.go:106-130 | an entry yields an event iff it gives a link, its modify time is not the zero time and its target is non-empty; the event has that target, time and stream name |
| Jumplist.JumpDetails | internal/plugin/jumplist.go:119-125 | exactly the five detail keys, with the file's base name and the stream name |
| Jumplist.Parse | internal/plugin/jumplist.go:50-136 | a directory error is "oleparse failed: " and its message; otherwise no artifacts and the entry events of the directory entries, in order |
| Jumplist.StorageEntriesIgnored | internal/plugin/jumplist.go:59-63 | a directory without stream entries yields nothing |
| LnkStub.NameTestIsExact | pkg/parsers/lnk_stub.go:31-41 | without the header signature, "a.lnk" is accepted while "a.LNK" and ".lnk" are not |
| LnkStub.Parse | pkg/parsers/lnk_stub.go:43-75 | never fails; exactly one artifact and one event, linked by the artifact id, with the fixed details and the request path with SHA-256 "stub" |
| LegacyRules.GetDetail | internal/analysis/rules.go:192-197 | "" for a missing key, otherwise a part of the value with no surrounding white space |
| LegacyRules.FiringRules | internal/analysis/rules.go:16-28 | a rule is among those that fire iff it is in the engine's list and its `Check` holds for the event; nothing in the source applies the list, so this is the model's own reading of the `Check` field |
| LegacyRules.CheckEventIds | internal/analysis/rules.go:42-180 | every check but the critical-process one fires only on 4688; that one only on 4663 or 4656 |
| LegacyRules.OtherEventsFireNothing | internal/analysis/rules.go:42-180 | an event with any other id fires no rule |
| LegacyRules.CaseBlind | internal/analysis/rules.go:44-184 | the checks read the process, command line and object name only in lower case |
| LegacyRules.DistinctIds | internal/analysis/rules.go:32-189 | the eight rule ids are distinct |
| Analyzers.TempFindingShape | pkg/analyzers/temp_exec_stub.go:38-47 | a finding made for an event is the medium-severity "temp-exec" finding named after the event and citing its evidence |
| Analyzers.TempFlagsIff | pkg/analyzers/temp_exec_stub.go:33-37 | an event yields a finding iff its lower-cased `path` detail contains "temp" (an empty or missing path never does) |
| Analyzers.TempExecution | pkg/analyzers/temp_exec_stub.go:30-51 | at most one finding per event, and every finding reports some event of the timeline |
| Analyzers.TempEventFlagged | pkg/analyzers/temp_exec_stub.go:32-48 | every event with a temp path has its finding in the result |
| Analyzers.TempExecutionAppend | pkg/analyzers/temp_exec_stub.go:32-49 | the findings of two timelines joined are the findings of each, in order |
| Analyzers.PrefetchNames | pkg/analyzers/execution_anomaly.go:34-43 | a name is in the set iff some event with the given source has it as its upper-cased subject |
| Analyzers.AnomalyScan | pkg/analyzers/execution_anomaly.go:45-69 | no more findings than events; each is the high-severity "exec-anomaly-no-prefetch" finding of an unexplained process event (order and multiplicity are the rows of Analyzers.AnomalyScanAppend and Analyzers.AnomalyScanOne) |
| Analyzers.AnomalyScanAppend | pkg/analyzers/execution_anomaly.go:45-69 | the scan of a joined timeline is the scans of its parts joined, so findings follow timeline order |
| Analyzers.AnomalyScanOne | pkg/analyzers/execution_anomaly.go:45-69 | one event gives exactly its own finding when unexplained and nothing otherwise, so each of two equal unexplained events is reported |
| Analyzers.ExecutionAnomaly | pkg/analyzers/execution_anomaly.go:30-72 | with the prefetch names taken from the events of the given source, every unexplained process event is reported, only those are, and every finding is high severity |
| Analyzers.ExecutionAnomalyAppend | pkg/analyzers/execution_anomaly.go:30-72 | with the names gathered from the whole timeline, the findings of a timeline are the scans of its parts, in timeline order |
| Analyzers.ReportedIff | pkg/analyzers/execution_anomaly.go:36-56 | with the names taken from "Prefetch" events, a process is unexplained iff it comes from the process list, is not one of the four exempt names, and no prefetch event names it up to case; every unexplained process is reported |
| Analyzers.ReportedIn | pkg/analyzers/execution_anomaly.go:48-68 | every unexplained process event has its finding in the scan |
| Analyzers.PrefetchEventsAreCapitalised | internal/plugin/prefetch.go:77-83 | prefetch events carry the source "Prefetch", never "prefetch" |
| Analyzers.AsWrittenIgnoresPrefetchParser | pkg/analyzers/execution_anomaly.go:36 | with a prefetch event for CMD.EXE and a running cmd.exe, the code as written reports the process and the corrected analyzer does not |
| Analyzers.SaveInTurn | internal/engine/pipeline.go:707-721 | batches are saved in order; with no failure all are saved, otherwise saving stops at the first failed batch and returns its error |
| Analyzers.DefaultOrder | internal/plugin/registry.go:31-34 | with a store that accepts everything, the temp-path findings are saved before the anomaly findings, the latter from the analyzer as written |
| Analyzers.RunReports | internal/plugin/registry.go:31-34 | the registered temp-path analyzer reports only temp-path events and flags every event whose path mentions "temp"; the registered anomaly analyzer is the one as written: it reports exactly the unexplained processes given the names of "prefetch" events |
| Analyzers.Analyze | internal/engine/pipeline.go:707-721 | the analyzers run in registry order over the same timeline; all batches are saved when every save succeeds, otherwise saving stops at the first failure and returns its error |
| Browser.VisitEvent | internal/plugin/browser_windows.go:83-113 | the visit time converted from WebKit microseconds, the URL's host as subject when the URL parses (else the URL), source "Browser", artifact "<browser> History", and the URL, title and EventID "URL" as details |
| Browser.RowEvent | internal/plugin/browser_windows.go:78-81 | a row yields an event iff its columns could be read |
| Browser.RowEvents | internal/plugin/browser_windows.go:78-114 | one visit event per row that scanned, in query order, built from that row's URL, title and visit time |
| Browser.RowEventsFollowVisits | internal/plugin/browser_windows.go:78-114 | filtering the rows through the per-row event gives one visit event per scanned row, in order |
| Browser.BrowserEvents | internal/plugin/browser_windows.go:31-36 | nothing when the database is missing or cannot be queried, otherwise the events of its rows |
| Browser.Collect | internal/plugin/browser_windows.go:20-40 | nothing without a user profile; otherwise the Chrome and Edge events together, in either order |
| Browser.VisitTimeRoundTrip | internal/plugin/browser_windows.go:87-91 | every event's time converts back to the WebKit timestamp of a row |
| Network.NetstatLine | internal/plugin/network_windows.go:54-97 | a line is skipped iff, trimmed, it is empty or a header or has fewer than four fields; otherwise protocol, local and foreign address are the first three fields, and the state is the fourth field with five or more fields, "N/A" for four-field UDP and "UNKNOWN" for four-field TCP |
| Network.NetstatPidIsLastField | internal/plugin/network_windows.go:74-97 | the PID is the fourth field of a four-field line and the fifth otherwise, and is never empty |
| Network.BlankNetstatLine | internal/plugin/network_windows.go:58-61 | a line of white space yields no connection |
| Network.ConnEvent | internal/plugin/network_windows.go:99-117 | the foreign address as subject and RemoteIP, EventID "CONN", source "Network", the collection time, and the PID and state as details |
| Network.NetstatEvents | internal/plugin/network_windows.go:53-118 | the events are the connection events of the connection lines, in line order; all are CONN events from source "Network" |
| Network.ArpStep | internal/plugin/network_windows.go:138-156 | an interface line becomes the current interface and yields nothing; any other line keeps the interface and yields an entry iff it is not an "Internet" header and has at least three fields, which are the IP, MAC and type |
| Network.ArpEvent | internal/plugin/network_windows.go:158-174 | the IP as subject and detail, the current interface, EventID "ARP", source "Network" |
| Network.ArpEntries | internal/plugin/network_windows.go:137-175 | at most one entry per line (which entry each line gives, in order, is the row of Network.ArpEntriesSnoc) |
| Network.ArpEntriesSnoc | internal/plugin/network_windows.go:137-175 | one more line adds the entry it gives, if any, read under the interface of the last interface line before it (or the starting one) |
| Network.ArpKeepsInterface | internal/plugin/network_windows.go:135-147 | without interface lines every entry carries the interface in force before them |
| Network.ArpAfterInterface | internal/plugin/network_windows.go:144-147 | after an interface line, every entry up to the next one carries that (trimmed) line |
| Network.ConfigValue | internal/plugin/network_windows.go:220-224 | the trimmed value, cut before its first parenthesis and trimmed again when that parenthesis is not its first character; a parenthesis survives only as the first character |
| Network.ConfigKey | internal/plugin/network_windows.go:219 | the key has no dots, no surrounding white space, and is a piece of the text with its dots removed |
| Network.ConfigPair | internal/plugin/network_windows.go:217-224 | a line gives a pair iff it contains a colon, and the key of a pair never holds a dot |
| Network.ConfigPairAtFirstColon | internal/plugin/network_windows.go:217-224 | the line splits at its first colon: the key is made from the text before it and the value from the text after it |
| Network.IpconfigStep | internal/plugin/network_windows.go:195-243 | an unindented line ending in ":" names the current adapter and yields nothing; any other line yields an entry iff an adapter is current and the trimmed line mentions a physical or IPv4 address and has a colon |
| Network.ConfigEvent | internal/plugin/network_windows.go:226-241 | the adapter as subject and detail, the key and value, EventID "IPCFG", source "Network" |
| Network.IpconfigEntries | internal/plugin/network_windows.go:194-245 | at most one entry per line (which entry each line gives, in order, is the row of Network.IpconfigEntriesSnoc) |
| Network.IpconfigEntriesSnoc | internal/plugin/network_windows.go:194-245 | one more line adds the entry it gives, if any, read under the adapter named by the last adapter header before it (or the starting one) |
| Network.NothingBeforeAdapter | internal/plugin/network_windows.go:210 | no entry is read before the first adapter line |
| Network.CollectEvents | internal/plugin/network_windows.go:19-36 | the netstat events of the connection lines, then the ARP events of the ARP entries read from the start with no interface in force, then the IPCFG events of the ipconfig entries read with no adapter in force; each collector stamps its own reading of the clock; at most one event per output line; all from source "Network" |
| Prefetch.ShortHeaderRejected | internal/plugin/prefetch.go:38-40 | a header shorter than 8 bytes is refused whatever the name |
| Prefetch.UnsignedHeaderNeedsName | internal/plugin/prefetch.go:41-50 | a header starting with neither "SCCA" nor "MAM" is accepted iff the lower-cased name ends in ".pf" |
| Prefetch.VersionFirstAcceptedOnlyByName | internal/plugin/prefetch.go:37-50 | an uncompressed file, which starts with its format version and has "SCCA" at offset 4, is accepted only by its ".pf" name |
| Prefetch.EventTime | internal/plugin/prefetch.go:70-75 | the first recorded run time, or the current time when there is none |
| Prefetch.PrefetchEvent | internal/plugin/prefetch.go:77-94 | subject the executable, source and artifact "Prefetch", action EXECUTION, exactly the five detail keys, and the evidence path |
| Prefetch.CountersReadBack | internal/plugin/prefetch.go:85-89 | the run count and the number of files accessed read back from their decimal details |
| Prefetch.Parse | internal/plugin/prefetch.go:62-104 | a load error becomes "failed to parse prefetch <path>: <error>"; otherwise exactly the one event is delivered, streamed with an empty response or returned in the response |
| Prefetch.StreamAndBatchAgree | internal/plugin/prefetch.go:96-103 | the streamed event is the one the batch response holds |
| Sigma.BundledAreProcessCreation | internal/analysis/bundled_rules.go:8-111 | the six bundled rules all have the process_creation category |
| Sigma.Load | internal/analysis/engine_v2.go:39-62 | rules that fail to parse are dropped; the rest are kept, each indexed under its category or among the global rules, in order |
| Sigma.Add | internal/analysis/engine_v2.go:45-61 | adding a rule appends it and keeps every index pointing at a rule of that category |
| Sigma.NewEngine | internal/analysis/engine_v2.go:33-93 | the bundled rules come first, followed by the external ones, with the indexes consistent |
| Sigma.LoadPrefix | internal/analysis/engine_v2.go:64-81 | rules that all parse keep their positions whatever follows them |
| Sigma.LoadAll | internal/analysis/engine_v2.go:39-62 | when every rule parses, the engine holds exactly those rules in order |
| Sigma.FirstUsable | internal/analysis/engine_v2.go:107-114 | the value of the first source that is present and neither "" nor "-", and none only when no source is usable |
| Sigma.AliasKeeps | internal/analysis/engine_v2.go:101-114 | a field that no usable alias targets keeps the event's own value, or stays absent |
| Sigma.AliasSets | internal/analysis/engine_v2.go:107-114 | a field targeted by a usable alias, and not by a later one, holds that alias's value |
| Sigma.AdaptImage | internal/analysis/engine_v2.go:122 | Image is NewProcessName, else ExePath, when one is usable |
| Sigma.AdaptCommandLine | internal/analysis/engine_v2.go:123 | CommandLine is the enriched `_CommandLine`, else the raw one, when usable; otherwise the detail as it was |
| Sigma.AdaptEventId | internal/analysis/engine_v2.go:102-117 | EventID is kept exactly as the event has it |
| Sigma.AdaptKeepsOthers | internal/analysis/engine_v2.go:101-104 | a detail that is no alias target is copied unchanged |
| Sigma.CategoryOf | internal/analysis/engine_v2.go:146-168 | 4688 and 1 map to process_creation; an id outside the four known groups falls back to registry_event for Registry artifacts, process_creation for Prefetch ones, and no category otherwise |
| Sigma.FirstMatch | internal/analysis/engine_v2.go:171-180 | the first listed rule that matches, and none only when no listed rule matches |
| Sigma.CatBucket | internal/analysis/engine_v2.go:183-187 | the bucket of a category holds only rules of that category, and every rule of a non-empty category is in it |
| Sigma.Evaluate | internal/analysis/engine_v2.go:96-191 | the first matching rule of the event's category bucket, in load order, when there is one; otherwise the first matching global rule, and nothing iff no global rule matches |
| Sigma.OtherCategoriesNeverMatch | internal/analysis/engine_v2.go:183-190 | with only the bundled rules, an event outside process_creation never matches |
| Sigma.BundledOnly | internal/analysis/engine_v2.go:64-70 | without external rules the engine holds exactly the bundled rules |
| Sigma.WhoamiDetected | internal/analysis/bundled_rules.go:8-22 | a 4688 event whose new process is whoami.exe is reported as the whoami rule |
| TaskXml.Utf16HeaderRejected | internal/plugin/taskxml.go:35-49 | a header in UTF-16LE (every odd byte zero from index 3 on, with or without the byte-order mark FF FE) never contains "<?xml", so the file is refused |
| TaskXml.BomHeaderRejected | internal/plugin/taskxml.go:35-49 | a header made of the byte-order mark and "<?xml" in UTF-16LE is refused |
| TaskXml.TriggerLabels | internal/plugin/taskxml.go:142-153 | each label is present iff its trigger kind appears, in the fixed order AtBoot, AtLogon, Scheduled |
| TaskXml.SimplifyTriggers | internal/plugin/taskxml.go:142-158 | "Other/Manual" exactly when no known trigger appears; otherwise the labels joined with ", " |
| TaskXml.AllTriggers | internal/plugin/taskxml.go:145-157 | a block naming all three kinds, whatever surrounds them, gives "AtBoot, AtLogon, Scheduled" |
| TaskXml.ThreeKinds | internal/plugin/taskxml.go:145-157 | any text containing all three kinds gives "AtBoot, AtLogon, Scheduled" |
| TaskXml.Prepare | internal/plugin/taskxml.go:91-95 | content without the UTF-16LE byte-order mark is passed on unchanged |
| TaskXml.ExecEvent | internal/plugin/taskxml.go:112-135 | the event of one Exec action: its command as subject, and its arguments, the task file name, author, description and simplified triggers as details |
| TaskXml.PrepareKeepsBom | internal/plugin/taskxml.go:91-95 | UTF-16LE text with a byte-order mark becomes the same text in UTF-8, mark included |
| TaskXml.Parse | internal/plugin/taskxml.go:97-139 | a decode failure becomes "xml parse failed: <error>"; otherwise one event per Exec action, in order, with its command as subject, the modification time (or now), the id "task-<file name>-<UnixNano>" and the arguments, file name, author, description and simplified triggers as details |
| Text.Utf16Decode | internal/plugin/utils.go:27 | decoding yields Unicode scalar values, never more of them than there are units |
| Text.Utf16RoundTrip | internal/plugin/utils.go:27 | decoding the UTF-16 encoding of any scalar sequence gives it back |
| Text.Units | internal/plugin/utils.go:22-25 | each unit is the little-endian pair of bytes at its position |
| Text.UnitsOfUnitBytes | internal/plugin/utils.go:22-25 | reading back the bytes of units gives the units |
| Text.CleanupUtf16 | internal/plugin/utils.go:17-39 | odd-length input is returned as it is; even-length input gives text without NUL |
| Text.CleanupUtf16RoundTrip | internal/plugin/utils.go:17-39 | UTF-16LE text without NUL comes out as its UTF-8 encoding |
| Text.CleanupUtf16StopsAtNul | internal/plugin/utils.go:28-37 | text after the first NUL is dropped |
| Text.TakeUntilNul | internal/plugin/utils.go:33-38 | the longest NUL-free prefix |
| Text.DropTrailingNul | internal/plugin/utils.go:29-31 | at most one final NUL is removed |
| Text.Utf8EncodeValid | internal/plugin/utils.go:45 | the UTF-8 encoding of scalars is valid UTF-8 |
| Text.BytesToString | internal/plugin/utils.go:43-56 | valid UTF-8 is kept; otherwise the GB18030 decoding when it succeeds, else the raw bytes |
| Text.BytesToStringOfUtf8 | internal/plugin/utils.go:45-47 | encoded text is never sent through the GB18030 fallback |
| Text.CleanString | internal/plugin/utils.go:63-65 | the result is part of the NUL-trimmed input with no white space at either end |
| Text.CleanStringNotIdempotent | internal/plugin/utils.go:63-65 | white space before a NUL survives one pass, so a second pass can change the result |
| TimeConv.GoMod | internal/plugin/browser_windows.go:90 | Go's truncating remainder: quotient times divisor plus remainder is the dividend, and the remainder has the dividend's sign |
| TimeConv.FiletimeToTime | internal/plugin/utils.go:68-80 | the instant 100-nanosecond ticks after 1601, or the zero time when that falls after the year 3000 |
| TimeConv.FiletimeRoundTrip | internal/plugin/utils.go:68-80 | every FILETIME before the year 3001 converts back to itself |
| TimeConv.TimeRoundTrip | internal/plugin/utils.go:68-80 | every instant from 1601 to 3000 at 100 ns resolution comes back from its FILETIME |
| TimeConv.FiletimeZeroIs1601 | internal/plugin/utils.go:76-78 | FILETIME 0 is 1601-01-01, which is not the zero time |
| TimeConv.FiletimeOfUnixEpoch | internal/plugin/utils.go:72-75 | 116444736000000000 ticks is the Unix epoch |
| TimeConv.WebKitToTime | internal/plugin/browser_windows.go:87-91 | the instant the given microseconds after 1601, for every int64 including negative ones |
| TimeConv.WebKitRoundTrip | internal/plugin/browser_windows.go:87-91 | the WebKit timestamp can be read back from the instant |
| TimeConv.WebKitNonNegative | internal/plugin/browser_windows.go:89-90 | for non-negative timestamps the truncating split agrees with floor division |
| TimeConv.WebKitExample | internal/plugin/browser_windows.go:87-91 | 13412599200000000 is 2026-01-11 10:00:00 UTC |
| UserAssist.Rot13Char | internal/plugin/userassist.go:137-150 | letters stay letters of the same case; everything else is unchanged |
| UserAssist.Rot13 | internal/plugin/userassist.go:137-150 | the loop over the runes of the name never writes less than it reads (which runes it writes is the row of UserAssist.Rot13OfValid, UserAssist.Rot13IsValid and UserAssist.Rot13ReplacesInvalidByte) |
| UserAssist.Rot13Involution | internal/plugin/userassist.go:137-150 | rotating twice gives back a name that is valid UTF-8; for any name, rotating the result twice gives the result back |
| UserAssist.Rot13Chars | internal/plugin/userassist.go:137-150 | each character rotated on its own: ASCII letters within their case, everything else unchanged |
| UserAssist.Rot13OfValid | internal/plugin/userassist.go:137-150 | on a name that is valid UTF-8 the rune loop rotates character by character, since every byte of a multi-byte rune is at or above 0x80 |
| UserAssist.Rot13IsValid | internal/plugin/userassist.go:137-150 | whatever the name, the decoded subject is valid UTF-8, because the loop writes each rune with `WriteRune` |
| UserAssist.Rot13ReplacesInvalidByte | internal/plugin/userassist.go:137-150 | a byte that starts no UTF-8 sequence is read as U+FFFD and written as its three bytes EF BF BD: "Pns" 0xE9 becomes "Caf" EF BF BD |
| UserAssist.Rot13NotInvolutiveOnInvalid | internal/plugin/userassist.go:137-150 | for that name, rotating the subject again does not give the stored name back |
| Text.RuneLen | internal/plugin/userassist.go:139 | the bytes `for … range` reads as the next rune: a whole well-formed UTF-8 sequence (one byte exactly when it is ASCII, otherwise bytes at or above 0x80), or none when the head byte is invalid |
| UserAssist.ValueEvent | internal/plugin/userassist.go:83-127 | a value yields an event iff it has data of at least 68 bytes, a positive run count and a non-zero last execution time; the event carries the GUID, the raw name and that time |
| UserAssist.GuidEvents | internal/plugin/userassist.go:69-81 | a GUID key without a Count subkey yields nothing; otherwise the value events of the Count values, in order |
| UserAssist.Tagged | internal/plugin/userassist.go:69-81 | each value of a GUID key paired with the GUID, in order |
| UserAssist.GuidEventsTagged | internal/plugin/userassist.go:69-81 | a GUID key's events are the value events of its GUID-tagged Count values |
| UserAssist.AllGuidEvents | internal/plugin/userassist.go:62-81 | the events of all GUID subkeys are the value events of their Count values, GUID by GUID |
| UserAssist.Parse | internal/plugin/userassist.go:58-133 | never fails; an empty response when the UserAssist key is missing; otherwise the value events of the Count values of every GUID subkey, GUID by GUID and in order |
| UserAssist.SubjectEncodesRawName | internal/plugin/userassist.go:85-120 | the subject of every event is valid UTF-8 and comes back from two rotations; rotating it gives the stored value name whenever that name is valid UTF-8 |
| UserAssist.ZeroFiletimeStillEmitted | internal/plugin/userassist.go:108-110 | a FILETIME of 0 is 1601, not the zero time, so the value is still reported |
| Wintri.ColumnMap | internal/plugin/wintri_process.go:53-56 | every lower-cased header is mapped to its last position |
| Wintri.GetCol | internal/plugin/wintri_process.go:117-122 | the record's field at the mapped index, or "" when the name is unmapped or the record is too short |
| Wintri.GetColFindsLastHeader | internal/plugin/wintri_process.go:53-56 | a column whose name is not repeated later is read back from its own position |
| Wintri.ReadRecords | internal/plugin/wintri_process.go:63-70 | the rows up to the first malformed one or the first with a different field count |
| Wintri.EventTime | internal/plugin/wintri_process.go:77-90 | the zero time for dates of at most 21 characters; otherwise the parsed date, or the current time when it does not parse |
| Wintri.RecordEvent | internal/plugin/wintri_process.go:72-106 | source "wintri-process", subject the process name, id from PID and date, pid and cmdline details |
| Wintri.Parse | internal/plugin/wintri_process.go:45-114 | a header error is returned; otherwise one event per record read |
| Wintri.MalformedRowStops | internal/plugin/wintri_process.go:68-70 | rows after a malformed one are never read |
| MemStore.NewStore | internal/storage/storage.go:38-44 | a new stub store holds no events, artifacts or findings |
| MemStore.InitCase | internal/storage/storage.go:46-48 | opening a case always succeeds and changes nothing |
| MemStore.RegisterEvidence | internal/storage/storage.go:50-52 | registering evidence always succeeds and changes nothing |
| MemStore.SaveTimeline | internal/storage/storage.go:61-66 | saving events never fails; the earlier events stay first, the new ones follow in order, and artifacts and findings are untouched |
| MemStore.SaveArtifacts | internal/storage/storage.go:54-59 | saving artifacts never fails and appends them in order, leaving events and findings untouched |
| MemStore.SaveFindings | internal/storage/storage.go:68-73 | saving findings never fails and appends them in order, leaving events and artifacts untouched |
| MemStore.QueryTimeline | internal/storage/storage.go:75-82 | the query fails with "filter required" exactly when the filter is missing; with any filter it returns every saved event in save order |
| MemStore.QueryFindings | internal/storage/storage.go:84-88 | the findings query succeeds and returns every saved finding in order |
| MemStore.QueryAfterSaves | internal/storage/storage.go:61-82 | after saving batches one by one into a new store, a query with any filter returns the concatenation of the batches |
| MemStore.QueryIgnoresFilter | internal/storage/storage.go:79-81 | two different filters give the same timeline query result |
| MemStore.SavesAreIndependent | internal/storage/storage.go:61-88 | saving events does not change the findings query, and saving findings does not change the timeline query |
| FileStore.NewFileStorage | internal/storage/file_store.go:25-30 | creating a store fails with "case path required" exactly when the path is empty; otherwise the store holds the path |
| FileStore.InitCase | internal/storage/file_store.go:61-68 | an empty path keeps the current case, and any other path becomes the case path |
| FileStore.InitCaseIdempotent | internal/storage/file_store.go:61-68 | opening the same case twice gives the same store as opening it once |
| FileStore.StreamFile | internal/storage/file_store.go:137-158 | a stream file holding at least one record is non-empty and ends with a newline |
| FileStore.Lines | internal/storage/file_store.go:330-336 | no line read back from a file contains a newline |
| FileStore.LinesCons | internal/storage/file_store.go:146-158 | a record followed by a newline is read back as that one line, followed by the lines of the rest |
| FileStore.StreamFileIsConcat | internal/storage/file_store.go:137-158 | writing the records one by one gives each record followed by a newline, in order |
| FileStore.LinesOfConcat | internal/storage/file_store.go:146-158 | records joined with newlines are read back as the same records |
| FileStore.StreamRoundTrip | internal/storage/file_store.go:137-158 | reading a stream file back line by line gives exactly the records written |
| FileStore.CountTimelineEvents | internal/storage/file_store.go:318-339 | a missing timeline file is an error; otherwise the count is the number of lines |
| FileStore.CountAfterStream | internal/storage/file_store.go:137-158 | the count of a stream file is the number of events written to it |
| FileStore.QueryOf | internal/storage/file_store.go:208-223 | the term is trimmed and lower-cased; an "eid:" prefix, or else an "id:" prefix, selects event-ID mode with the remainder as ID and turns the term off; otherwise the whole term is the term |
| FileStore.Hit | internal/storage/file_store.go:243-288 | a line yields an event exactly when it passes the lower-cased prefilter, decodes, and its event passes the event-ID, artifact, source and time filters; the event yielded is the decoded one |
| FileStore.PageNumber | internal/storage/file_store.go:195-198 | the page number used is at least 1 |
| FileStore.PageSize | internal/storage/file_store.go:199-202 | the page size used is at least 1 |
| FileStore.Page | internal/storage/file_store.go:290-301 | a page has at most the page size; it is empty when the offset passes the hits, and otherwise the slice of hits starting at the offset |
| FileStore.SearchSpec | internal/storage/file_store.go:171-309 | the search fails exactly when the filter is missing; a missing timeline file gives no events; a result never exceeds the page size |
| FileStore.SearchTimeline | internal/storage/file_store.go:171-309 | the loop over the lines returns the page of hits from the offset on, which is the result the search defines |
| FileStore.ScanPage | internal/storage/file_store.go:233-301 | skipping the first offset hits and collecting up to the page size, stopping once the page is full, gives the page of all the hits |
| FileStore.PageIsFull | internal/storage/file_store.go:290-301 | once a page is full, further lines do not change it |
| FileStore.PageOfLonger | internal/storage/file_store.go:290-301 | a full page of some hits is also the page of any longer list of hits that extends them |
| FileStore.SearchIgnoresUnusedFields | internal/storage/file_store.go:171-309 | the host, user, IOC and result-count fields of a filter do not change the search result |
| FileStore.SameQuery | internal/storage/file_store.go:208-288 | two filters with the same term, artifact, source and time bounds give the same query |
| FileStore.PagesTile | internal/storage/file_store.go:195-204 | consecutive pages of the same size tile the hits, each page starting where the one before it ends |
| FileStore.BareEidPrefixMatchesAll | internal/storage/file_store.go:217-254 | a bare "eid:" term leaves no ID and no term, so every line passes the prefilter |
| Runner.NewRunner | internal/engine/runner.go:39-44 | a new runner has no jobs, and every job has a progress channel |
| Runner.Enqueue | internal/engine/runner.go:46-58 | an empty ID is replaced by the clock reading; the call fails with "job already exists" exactly when the ID is taken, and then changes nothing; otherwise the job and an empty channel are registered under the ID, which is returned |
| Runner.Cancel | internal/engine/runner.go:95-106 | cancel succeeds exactly when the job has a channel, and then removes the job and the channel, leaving the others, and what the closed channel delivered is everything sent on it followed by the message "cancelled" at 0 percent with the error "cancelled"; otherwise it fails with "job not found" and changes nothing |
| Runner.ProgressThenCancel | internal/engine/runner.go:95-116 | a receiver that took a job's channel from progress still reads the cancellation message after what was already sent, before the close |
| Runner.Progress | internal/engine/runner.go:108-116 | progress succeeds exactly for a job with a channel and returns that channel; otherwise it fails with "job not found" |
| Runner.Ticks | internal/engine/runner.go:77-90 | without cancellation, progress runs 25, 50, 75, 100; a cancellation after fewer than four ticks stops it after the percentages reached so far |
| Runner.Started | internal/engine/runner.go:56-72 | the "started" message is sent only when the channel's four-message buffer has room, and is skipped otherwise |
| Runner.Run | internal/engine/runner.go:60-93 | an unknown job is "job not found"; otherwise the job's channel receives "started" at 0 (when the buffer has room), then its name at each step, and on cancellation "cancelled" at the percentage reached with the context's error; the run ends without error exactly when it is not cancelled before 100 percent, and with the context's error otherwise |
| Runner.Reports | internal/engine/runner.go:83-88 | there is one progress message per step, carrying the job's name and that step's percentage |
| Runner.EnqueueThenProgress | internal/engine/runner.go:55-57 | after a successful enqueue, progress for the returned ID gives the empty channel |
| Runner.EnqueueTwice | internal/engine/runner.go:52-54 | enqueueing the same non-empty ID again fails with "job already exists" and leaves the runner as it was |
| Runner.CancelForgets | internal/engine/runner.go:98-105 | after a successful cancel, cancelling again and asking for progress both fail with "job not found" |
| Runner.EnqueueCancel | internal/engine/runner.go:46-106 | enqueueing a job and then cancelling it restores the runner |
| Ioc.HitValues | internal/ioc/matcher.go:12-30 | the hits are at most one per indicator; every hit is the value of a matching indicator, and every matching indicator's value is among the hits |
| Ioc.Tag | internal/ioc/matcher.go:11-31 | tagging changes only the hit list, and the old hits stay at its front |
| Ioc.MatchTimeline | internal/ioc/matcher.go:10-34 | the output has one event per input event, in order, each tagged with the matching indicators |
| Ioc.TagEvent | internal/ioc/matcher.go:12-30 | the loop over the indicators appends the values of the matching ones, in list order |
| Ioc.MatchesIgnoresHits | internal/ioc/matcher.go:13-29 | matching depends only on the details, not on the hits already recorded |
| Ioc.HitValuesIgnoresHits | internal/ioc/matcher.go:12-30 | the hit values do not depend on the hits already recorded |
| Ioc.HitValuesAppend | internal/ioc/matcher.go:12-30 | the hits of two joined indicator lists are the hits of the first list followed by those of the second |
| Ioc.TagTwice | internal/ioc/matcher.go:10-34 | tagging with one list and then another equals tagging once with the joined list |
| Ioc.KindIsCaseBlind | internal/ioc/matcher.go:13 | changing only the letter case of an indicator's kind does not change whether it matches |
| Ioc.EmptyValueMatchesAll | internal/ioc/matcher.go:14-29 | an empty path, domain or ip indicator matches every event |
| Ioc.EmptyHashMatchesHashless | internal/ioc/matcher.go:18-21 | an empty hash indicator matches exactly the events whose hash detail is missing or empty |
| Ioc.HashCaseMatters | internal/ioc/matcher.go:14-21 | a hash in another letter case is not a hit, while a path in another letter case is |
| Ioc.UnknownKindNeverMatches | internal/ioc/matcher.go:13-30 | an indicator of an unknown kind never matches |
| Evtx.ContentEvent | internal/plugin/evtx.go:507-613 | the event has the record's time, source EventLog and the file's base name as artifact; it is flagged unknown exactly when the id has no description, and then its action is "Unknown"; its details are the enriched ones |
| Evtx.CommandLineDetail | internal/plugin/evtx.go:545-547 | a command line that is neither empty nor "-" is copied to `_CommandLine`; every other key is unchanged |
| Evtx.ParentDetail | internal/plugin/evtx.go:548-550 | a non-empty parent process name gives `_ParentProcess` as its file name; every other key is unchanged |
| Writer.StepCounts | internal/engine/pipeline.go:306-346 | an event the quota refuses leaves the state as it was; an admitted one is appended and counted once overall and once in its category |
| LiveTriage.FileBackedPaths | internal/engine/pipeline.go:132-167 | an empty selection gives no path, and LIVE_HKCU is among the paths iff Registry is enabled |
| Network.ArpEvents | internal/plugin/network_windows.go:158-174 | one ARP event per parsed entry, in order |
| Network.ConfigEvents | internal/plugin/network_windows.go:226-241 | one IPCFG event per parsed entry, in order |
| Analyzers.UnexplainedIff | pkg/analyzers/execution_anomaly.go:35-56 | with the names taken from "Prefetch" events, a process event is reported iff it comes from the process list, is not exempt, and no prefetch event's subject equals its name up to case |

## Left out

- Concurrency is not modelled.
  - The writer goroutine, the worker pool, channels, WaitGroups and panic recovery of `runTriage` (internal/engine/pipeline.go:238-443) are out.
  - The writer is a fold over the events in the order it receives them.
  - The store mutexes only serialise calls, so each call is a function from one state to the next.
- File-system work is not modelled, because it is operating-system plumbing.
  - Left out: directory walking, `stat`, temporary copies and their removal, and the orphan sweep (internal/engine/pipeline.go:43-101, 483-552).
  - Which files exist and what they hold are inputs. A file that cannot be read is `None`.
- Evidence acquisition is not modelled: `reg save`, PowerShell, copies through `cmd`, raw NTFS reads, and live command execution. It is process plumbing. For netstat, arp and ipconfig only the line parsers are modelled, over the output lines.
- The third-party decoders are abstract inputs, because their code is not part of this model:
  - the EVTX chunk and binary-XML decoder (`Evtx.Decoder` takes records already decoded into `System`/`EventData`/`UserData` maps);
  - registry hive reading (a `Hive.Key` tree) and AppCompatCache entry decoding;
  - go-prefetch, including its MAM decompression;
  - OLE compound-file and shell-link parsing;
  - `encoding/xml`, `encoding/csv` and `encoding/json`;
  - `url.Parse` and `time.Parse`;
  - GB18030 decoding.
- The Sigma evaluator's internal matching is not part of this model. The subset the six bundled rules use is interpreted directly: `endswith` and `contains`, lists as OR, maps as AND, and `and` conditions. Letter-case handling is the parameter `ignoreCase`.
- The wall clock is the parameter `now`, and `time.Now().UnixNano()` in `Runner.Enqueue` is the parameter `now` too. Float percentages (internal/plugin/evtx.go:267) are out. The runner's percentages are whole numbers, which the float64 of the source always holds in steps of 25.
- WMI collection (internal/plugin/wmi_windows.go) is out, because it is COM and thread plumbing. The browsers' SQLite queries are out too: history rows are an input.
- Case mapping is ASCII only. `strings.ToLower`, `ToUpper`, `EqualFold`, `TrimSpace` and `Fields` are modelled on ASCII letters and ASCII white space. Go strings are byte strings, one character per byte.
- `filepath.Clean` is modelled only as turning slashes into backslashes and collapsing repeated separators. Resolving `.` and `..` is out.
- `AddDate(0, 0, -days)` is modelled as subtracting `days` whole days of 86400 seconds, which ignores daylight-saving changes of the local zone.
- JSON decoding and the EventID detail:
  - The `fmt.Sprintf("%v", …)` comparison of the EventID detail after a JSON round trip is modelled as string equality on the decoded detail.
  - Details are string maps, and decoding a line is the parameter `decode`.
- `FileStore.SearchTimeline`: not modelled are the scanner's 10 MiB line limit, the context check on each line, and the search term being written back into the filter.
- `FileStore.Page`: the offset `(page - 1) * pageSize` is unbounded here. Overflow of Go's `int` for huge pages is out.
- Only the line framing of `NewStreamWriter` is modelled. The file-backed `SaveTimeline`, `SaveFindings`, `SaveArtifacts`, `QueryFindings`, `RegisterEvidence` and `Reset`, with `ensureFiles` and `appendJSONL`, are JSON-lines file I/O and are out.
- `Writer.Write`: a failed write is counted like a successful one, so the output is the list of events handed to the writer. The error itself, and any I/O, are out.
- Progress callbacks and log lines are out. They carry no state the pipeline reads back.
- `Runner.Run`:
  - the ticker and `select` are modelled as a count of ticks before the context is cancelled (`cancelAfter`);
  - a channel is the list of messages sent on it; how many of them still sit unreceived in the four-message buffer is the parameter `unread`, which decides whether the non-blocking "started" send is skipped;
  - the step and "cancelled" sends block while the buffer is full; the model takes them as eventually received, and a run that waits forever for a receiver is out.
- `Runner.Cancel`: the cancellation message is sent with a blocking send while the runner's lock is held, so with a full buffer and no receiver the call, and every other call needing the lock, waits; that wait is out, and the model takes the message as delivered.
- `Text.RuneLen` reads a character at or above U+0100, which no Go string holds, as an invalid byte.
- `Network.NetstatEvents`, `Network.ArpEntries` and `Network.IpconfigEntries` read every line of the command's output. The source's default `bufio.Scanner` stops at a line over 64 KiB, and `scanner.Err()` is never checked, so the parse would silently end there; that limit is out.
- `Ioc.MatchTimeline` returns new events rather than changing the caller's slice in place. The contents are the same.
- `Browser.Collect` states the Chrome and Edge events as a multiset, because the source iterates a Go map, whose order is unspecified.
- `LiveTriage.SearchPaths` states which virtual names appear, and that an empty selection gives no path. It does not state the exact list of fixed paths for each component.
- `Evtx.WeakTicketFlagged` is stated on a record's decoded content and details. `Evtx.RecordEvent` states that an event's details are those details.
- `Sam.DecodeUser` reads the name fields with the corrected range check `Sam.NameField`. In the code as written, the uint32 sum of offset, bias and length can wrap past 2^32 and pass the check, with one of two outcomes:
  - when the end wraps below the start, the slice panics. The pipeline recovers the panic (internal/engine/pipeline.go:364-369), so that SAM file yields no events at all (`Sam.NameCheckWraps`);
  - when only the offset plus the 0xCC bias wraps, the name is read from the wrong bytes of V, without a panic (`Sam.NameOffsetWrapMisreads`). The full-name pair at 0x18/0x1C behaves the same way.
  In both cases the model names the user "Unknown", with full name "". The as-written check is modelled by `Sam.NameFieldAsWritten`.
- `FileStore.CountTimelineEvents` counts every line. The source reads with a default `bufio.Scanner`, whose token limit is 64 KiB. On a longer line it returns the count so far together with `bufio.ErrTooLong`. That error path is not modelled.
- `Network.ConfigKey` states that the key has no dots, no white space at either end, and is a piece of the dot-free text. It does not state that only white space was trimmed, because `GoStr.TrimSpace` promises only that its result is such a piece.
- `Evtx.Scan` and `Evtx.Parse`: when a file holds more records than the scan limit, they state only that the events are a prefix of the reference run. Where exactly the run stops then depends on chunk boundaries (internal/plugin/evtx.go:258-262).
- `Network.CollectEvents`: a collector whose command fails prints the error and yields nothing. Here the failed command is an empty list of output lines.
- internal/plugin/browser_unix.go is out. Its conversion overflows the nanosecond duration for present-day timestamps, so the Windows conversion is the one modelled.

## Findings

| source | as written | input that shows it | evidently intended | confidence | as-written member | corrected member |
|---|---|---|---|---|---|---|
| internal/plugin/sam.go:165-171 | the name range check adds offset, bias 0xCC and length in 32-bit unsigned arithmetic, so the sum can wrap and pass the check | a 32-byte V whose offset field at 0x0C is 0x34 and whose length field at 0x10 is 0xFFFFFF00: the offset becomes 0x100, offset plus length wraps to 0, the check passes, and the slice [0x100:0] panics, so the SAM file yields nothing; an offset field of 0xFFFFFF40 with length 4 instead wraps the offset to 0x0C and reads the name from bytes 0x0C-0x0F | the name is read only when its whole range lies inside V, with no wrap-around | not executed | Sam.NameFieldAsWritten (shown by Sam.NameCheckWraps and Sam.NameOffsetWrapMisreads) | Sam.NameField (agreeing with the code whenever the sum does not wrap: Sam.NameFieldAgreesWithoutWrap) |
| pkg/analyzers/execution_anomaly.go:36 | prefetch names are collected from events whose source is exactly "prefetch", but the prefetch parser emits "Prefetch" (internal/plugin/prefetch.go:80) | a timeline with a Prefetch event for CMD.EXE and a process-list event for cmd.exe: the process is reported as run without prefetch | the names of the prefetch parser's events explain the processes they name | not executed | Analyzers.ExecutionAnomaly with Analyzers.AsWrittenPrefetchSource, as registered by Analyzers.Run (Analyzers.RunReports; shown by Analyzers.AsWrittenIgnoresPrefetchParser) | Analyzers.ExecutionAnomaly with Analyzers.PrefetchSource (Analyzers.ReportedIff, Analyzers.UnexplainedIff) |
