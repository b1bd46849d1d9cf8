/** The ShimCache parser (internal/plugin/shimcache.go): AppCompatCache
    entries from a SYSTEM hive.  Decoding the binary value into entries is
    done by a library outside this model and is a parameter here. */
module ShimCache {
  import opened Wrappers
  import opened GoStr
  import opened Model
  import opened Hive
  import opened Seqs

  const KeyNotFound: string := "AppCompatCache key not found"
  const ValueMissing: string := "AppCompatCache value missing"

  const Set1Path: seq<string> := ["ControlSet001", "Control", "Session Manager", "AppCompatCache"]
  const Set2Path: seq<string> := ["ControlSet002", "Control", "Session Manager", "AppCompatCache"]

  /** One decoded cache entry. */
  datatype Entry = Entry(name: string, time: Instant)

  predicate CanParse(path: string, header: seq<Byte>) {
    HasPrefix(Upper(Base(path)), "SYSTEM") && HasRegf(header)
  }

  function CacheKey(root: Key): (r: Option<Key>)
    ensures OpenKey(root, Set1Path).Some? ==> r == OpenKey(root, Set1Path)
    ensures OpenKey(root, Set1Path).None? ==> r == OpenKey(root, Set2Path)
  {
    match OpenKey(root, Set1Path)
    case Some(k) => Some(k)
    case None => OpenKey(root, Set2Path)
  }

  function EntryEvent(e: Entry, evidencePath: string): (r: Option<TimelineEvent>)
    ensures r.Some? <==> e.name != ""
    ensures r.Some? ==> r.value.subject == e.name && r.value.time == e.time
                        && r.value.details == map["path" := e.name, "key" := "AppCompatCache"]
  {
    if e.name == "" then None
    else
      Some(NewEvent("shim-" + Base(e.name) + "-" + Itoa(UnixNano(e.time)), e.time,
                    "shimcache", "shimcache", "FILE_MODIFIED", e.name,
                    map["path" := e.name, "key" := "AppCompatCache"], PathRef(evidencePath)))
  }

  /** The raw data of the first value named exactly "AppCompatCache". */
  function CacheData(k: Key): (r: Option<seq<Byte>>)
    ensures r.Some? ==> exists v :: v in k.values && v.name == "AppCompatCache" && v.data.Some? && v.data.value.raw == r.value
  {
    match FirstValueExact(k.values, "AppCompatCache")
    case None => None
    case Some(v) => if v.data.Some? then Some(v.data.value.raw) else None
  }

  /** `Parse` on an already-read hive; `decode` stands for the
      AppCompatCache decoder.  Entries without a name are dropped. */
  function Parse(root: Key, evidencePath: string, decode: seq<Byte> -> seq<Entry>): (r: Result<ParseResponse>)
    ensures CacheKey(root).None? ==> r == Err(KeyNotFound)
    ensures CacheKey(root).Some? && CacheData(CacheKey(root).value).None? ==> r == Err(ValueMissing)
    ensures CacheKey(root).Some? && CacheData(CacheKey(root).value).Some? ==>
              r.Ok? && |r.value.events| <= |decode(CacheData(CacheKey(root).value).value)|
    ensures r.Ok? ==> forall i :: 0 <= i < |r.value.events| ==>
              r.value.events[i].subject != "" && r.value.events[i].action == "FILE_MODIFIED"
    ensures r.Ok? ==> && CacheKey(root).Some? && CacheData(CacheKey(root).value).Some?
                      && r.value.events == FilterMap(decode(CacheData(CacheKey(root).value).value), e => EntryEvent(e, evidencePath))
  {
    match CacheKey(root)
    case None => Err(KeyNotFound)
    case Some(k) =>
      match CacheData(k)
      case None => Err(ValueMissing)
      case Some(data) => Ok(EventsResponse(FilterMap(decode(data), e => EntryEvent(e, evidencePath))))
  }
}
