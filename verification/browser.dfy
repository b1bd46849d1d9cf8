/** Browser history collection (internal/plugin/browser_windows.go): one
    event per visited URL in the Chrome and Edge history databases.  Copying
    and querying the databases and parsing URLs are outside this model; the
    query's rows and the URL parser are parameters. */
module Browser {
  import opened Wrappers
  import opened GoStr
  import opened Model
  import opened TimeConv
  import opened Seqs

  type Int64 = x: int | MinInt64 <= x <= MaxInt64

  /** A row of the history query, or one whose columns could not be read. */
  datatype Row = Visit(url: string, title: string, visitTime: Int64) | ScanError

  /** What the collector reads from the environment. */
  datatype Env = Env(
    fileExists: string -> bool,
    query: string -> Option<seq<Row>>,
    parseHost: string -> Option<string>)

  /** `filepath.Join` of the profile directory and the database location,
      with separators normalised. */
  function HistoryPath(userProfile: string, vendor: seq<string>): string {
    CleanSeparators(Join([userProfile, "AppData", "Local"] + vendor + ["User Data", "Default", "History"], "\\"))
  }

  function ChromePath(userProfile: string): string {
    HistoryPath(userProfile, ["Google", "Chrome"])
  }

  function EdgePath(userProfile: string): string {
    HistoryPath(userProfile, ["Microsoft", "Edge"])
  }

  /** The event of one visit: its time is the WebKit timestamp converted
      exactly, and its subject is the URL's host when the URL parses, else
      the URL itself. */
  function VisitEvent(browser: string, path: string, url: string, title: string, visitTime: Int64,
                      parseHost: string -> Option<string>): (e: TimelineEvent)
    ensures e.time == WebKitToTime(visitTime)
    ensures e.subject == (if parseHost(url).Some? then parseHost(url).value else url)
    ensures e.source == "Browser" && e.artifact == browser + " History" && e.action == "Page Visit"
    ensures e.details == map["URL" := url, "Title" := title, "EventID" := "URL"]
    ensures e.evidence == PathRef(path)
  {
    var subject := match parseHost(url) case Some(h) => h case None => url;
    NewEvent("", WebKitToTime(visitTime), "Browser", browser + " History", "Page Visit", subject,
             map["URL" := url, "Title" := title, "EventID" := "URL"], PathRef(path))
  }

  function RowEvent(browser: string, path: string, parseHost: string -> Option<string>, row: Row)
    : (r: Option<TimelineEvent>)
    ensures r.Some? <==> row.Visit?
    ensures r.Some? ==> r.value == VisitEvent(browser, path, row.url, row.title, row.visitTime, parseHost)
  {
    match row
    case ScanError => None
    case Visit(url, title, t) => Some(VisitEvent(browser, path, url, title, t, parseHost))
  }

  /** `queryHistoryDB` over the rows the query returned; rows that fail to
      scan are skipped. */
  function RowEvents(browser: string, path: string, rows: seq<Row>, parseHost: string -> Option<string>)
    : (r: seq<TimelineEvent>)
    ensures |r| <= |rows|
    ensures (forall j :: 0 <= j < |rows| ==> rows[j].Visit?) ==> |r| == |rows|
    ensures forall i :: 0 <= i < |r| ==>
              exists j :: 0 <= j < |rows| && RowEvent(browser, path, parseHost, rows[j]) == Some(r[i])
    ensures |r| == |Visits(rows)|
    ensures forall i :: 0 <= i < |r| ==>
              r[i] == VisitEvent(browser, path, Visits(rows)[i].url, Visits(rows)[i].title, Visits(rows)[i].visitTime, parseHost)
  {
    RowEventsFollowVisits(browser, path, rows, parseHost);
    FilterMap(rows, row => RowEvent(browser, path, parseHost, row))
  }

  /** The rows that scanned, in query order. */
  function Visits(rows: seq<Row>): (vs: seq<Row>)
    ensures forall i :: 0 <= i < |vs| ==> vs[i].Visit? && vs[i] in rows
  {
    if |rows| == 0 then []
    else if rows[0].Visit? then [rows[0]] + Visits(rows[1..])
    else Visits(rows[1..])
  }

  /** Scanning the rows gives one visit event per row that scanned, in
      order. */
  lemma {:induction false} RowEventsFollowVisits(browser: string, path: string, rows: seq<Row>,
                                                 parseHost: string -> Option<string>)
    ensures var r := FilterMap(rows, row => RowEvent(browser, path, parseHost, row));
            && |r| == |Visits(rows)|
            && forall i :: 0 <= i < |r| ==>
                 r[i] == VisitEvent(browser, path, Visits(rows)[i].url, Visits(rows)[i].title,
                                    Visits(rows)[i].visitTime, parseHost)
  {
    var f := row => RowEvent(browser, path, parseHost, row);
    FilterMapKept(rows, f);
    VisitsAreKept(browser, path, rows, parseHost);
  }

  /** The rows that scanned are the rows that give an event. */
  lemma {:induction false} VisitsAreKept(browser: string, path: string, rows: seq<Row>,
                                         parseHost: string -> Option<string>)
    ensures Visits(rows) == Kept(rows, row => RowEvent(browser, path, parseHost, row))
  {
    if |rows| > 0 {
      VisitsAreKept(browser, path, rows[1..], parseHost);
    }
  }

  /** The events of one browser: none when the database is missing or the
      query fails, since those errors are only reported. */
  function BrowserEvents(browser: string, path: string, env: Env): (r: seq<TimelineEvent>)
    ensures !env.fileExists(path) || env.query(path).None? ==> r == []
    ensures env.fileExists(path) && env.query(path).Some? ==>
              r == RowEvents(browser, path, env.query(path).value, env.parseHost)
  {
    if !env.fileExists(path) then []
    else match env.query(path)
      case None => []
      case Some(rows) => RowEvents(browser, path, rows, env.parseHost)
  }

  /** `CollectBrowserHistory`.  The two browsers are visited in the order of
      a Go map iteration, which is not fixed; `chromeFirst` stands for it. */
  function Collect(userProfile: string, env: Env, chromeFirst: bool): (r: seq<TimelineEvent>)
    ensures userProfile == "" ==> r == []
    ensures userProfile != "" ==>
              multiset(r) == multiset(BrowserEvents("Chrome", ChromePath(userProfile), env)
                                      + BrowserEvents("Edge", EdgePath(userProfile), env))
  {
    if userProfile == "" then []
    else
      var chrome := BrowserEvents("Chrome", ChromePath(userProfile), env);
      var edge := BrowserEvents("Edge", EdgePath(userProfile), env);
      if chromeFirst then chrome + edge else edge + chrome
  }

  /** Every event's time converts back to the stored WebKit timestamp. */
  lemma VisitTimeRoundTrip(browser: string, path: string, rows: seq<Row>, parseHost: string -> Option<string>, i: int)
    requires 0 <= i < |RowEvents(browser, path, rows, parseHost)|
    ensures exists j :: 0 <= j < |rows| && rows[j].Visit?
              && ToWebKit(RowEvents(browser, path, rows, parseHost)[i].time) == rows[j].visitTime
  {
    var r := RowEvents(browser, path, rows, parseHost);
    var j :| 0 <= j < |rows| && RowEvent(browser, path, parseHost, rows[j]) == Some(r[i]);
    WebKitRoundTrip(rows[j].visitTime);
  }
}
