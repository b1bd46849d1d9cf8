/** The WINTri process-list parser (internal/plugin/wintri_process.go): one
    event per row of Process_List.csv.  CSV tokenising and the timestamp
    parser are outside this model: the file arrives as a header and a
    sequence of rows, each already split or marked malformed, and the
    timestamp parser is a parameter. */
module Wintri {
  import opened Wrappers
  import opened GoStr
  import opened Model

  /** One record as the CSV reader returns it. */
  datatype Row = Fields(fields: seq<string>) | Malformed

  predicate CanParse(name: string, header: seq<Byte>) {
    HasSuffix(Lower(name), "process_list.csv")
  }

  /** Lower-cased header name to column index; with repeated names the
      last column wins. */
  function ColumnMap(headers: seq<string>): (m: map<string, int>)
    ensures forall i :: 0 <= i < |headers| ==> Lower(headers[i]) in m
    ensures forall n :: n in m ==> 0 <= m[n] < |headers| && Lower(headers[m[n]]) == n
    ensures forall n, j :: n in m && m[n] < j < |headers| ==> Lower(headers[j]) != n
  {
    if |headers| == 0 then map[]
    else
      var m0 := ColumnMap(headers[..|headers| - 1]);
      ColumnMapStep(headers, m0);
      m0[Lower(headers[|headers| - 1]) := |headers| - 1]
  }

  /** The three properties `ColumnMap` promises of `m` for `headers`. */
  predicate IsColumnMap(headers: seq<string>, m: map<string, int>) {
    && (forall i :: 0 <= i < |headers| ==> Lower(headers[i]) in m)
    && (forall n :: n in m ==> 0 <= m[n] < |headers| && Lower(headers[m[n]]) == n)
    && (forall n, j :: n in m && m[n] < j < |headers| ==> Lower(headers[j]) != n)
  }

  lemma ColumnMapStep(headers: seq<string>, m0: map<string, int>)
    requires |headers| > 0
    requires IsColumnMap(headers[..|headers| - 1], m0)
    ensures IsColumnMap(headers, m0[Lower(headers[|headers| - 1]) := |headers| - 1])
  {
    var init := headers[..|headers| - 1];
    var last := |headers| - 1;
    var m := m0[Lower(headers[last]) := last];
    forall i | 0 <= i < |headers|
      ensures Lower(headers[i]) in m
    {
      if i < last {
        assert init[i] == headers[i];
      }
    }
    forall n | n in m
      ensures 0 <= m[n] < |headers| && Lower(headers[m[n]]) == n
    {
      if n != Lower(headers[last]) {
        assert init[m0[n]] == headers[m0[n]];
      }
    }
    forall n, j | n in m && m[n] < j < |headers|
      ensures Lower(headers[j]) != n
    {
      if n != Lower(headers[last]) {
        if j < last {
          assert init[j] == headers[j];
        }
      }
    }
  }

  /** `getCol`: the named column of the record, or "" when the header has
      no such column or the record is too short. */
  function GetCol(record: seq<string>, m: map<string, int>, name: string): (r: string)
    ensures name in m && 0 <= m[name] < |record| ==> r == record[m[name]]
    ensures !(name in m && 0 <= m[name] < |record|) ==> r == ""
  {
    if name in m && 0 <= m[name] < |record| then record[m[name]] else ""
  }

  /** A column named in the header (in any case) is found in every full
      record, at the position of its last occurrence in the header. */
  lemma GetColFindsLastHeader(headers: seq<string>, record: seq<string>, i: int)
    requires 0 <= i < |headers| && |record| == |headers|
    requires forall j :: i < j < |headers| ==> Lower(headers[j]) != Lower(headers[i])
    ensures GetCol(record, ColumnMap(headers), Lower(headers[i])) == record[i]
  {
    var m := ColumnMap(headers);
    var n := Lower(headers[i]);
    assert n in m;
    var k := m[n];
    var hk := Lower(headers[k]);
    assert hk == n;
    assert !(k < i);
    assert !(i < k);
  }

  /** The records the loop reads: rows up to the first one that is malformed
      or has a different number of fields from the header. */
  function ReadRecords(rows: seq<Row>, width: nat): (r: seq<seq<string>>)
    ensures |r| <= |rows|
    ensures forall i :: 0 <= i < |r| ==> rows[i] == Fields(r[i]) && |r[i]| == width
    ensures |r| < |rows| ==> rows[|r|].Malformed? || |rows[|r|].fields| != width
  {
    if |rows| == 0 then []
    else match rows[0]
      case Malformed => []
      case Fields(f) =>
        if |f| != width then [] else [f] + ReadRecords(rows[1..], width)
  }

  /** The event time: the parsed creation date when it is longer than 21
      bytes (or `now` if it does not parse), else the zero time. */
  function EventTime(date: string, parseWmi: string -> Option<Instant>, now: Instant): (t: Instant)
    ensures |date| <= 21 ==> IsZero(t)
    ensures |date| > 21 && parseWmi(date).Some? ==> t == parseWmi(date).value
    ensures |date| > 21 && parseWmi(date).None? ==> t == now
  {
    if |date| > 21 then parseWmi(date).GetOr(now) else ZeroTime
  }

  function RecordEvent(record: seq<string>, m: map<string, int>, evidencePath: string,
                       parseWmi: string -> Option<Instant>, now: Instant): (e: TimelineEvent)
    ensures e.source == "wintri-process" && e.artifact == "process" && e.action == "EXECUTION"
    ensures e.subject == GetCol(record, m, "processname")
    ensures e.id == "proc-" + GetCol(record, m, "processid") + "-" + GetCol(record, m, "creationdate")
    ensures e.details == map["pid" := GetCol(record, m, "processid"), "cmdline" := GetCol(record, m, "commandline")]
    ensures e.time == EventTime(GetCol(record, m, "creationdate"), parseWmi, now)
  {
    var pid := GetCol(record, m, "processid");
    var date := GetCol(record, m, "creationdate");
    NewEvent("proc-" + pid + "-" + date, EventTime(date, parseWmi, now), "wintri-process", "process", "EXECUTION",
             GetCol(record, m, "processname"),
             map["pid" := pid, "cmdline" := GetCol(record, m, "commandline")], PathRef(evidencePath))
  }

  function RecordEvents(records: seq<seq<string>>, m: map<string, int>, evidencePath: string,
                        parseWmi: string -> Option<Instant>, now: Instant): (r: seq<TimelineEvent>)
    ensures |r| == |records|
    ensures forall i :: 0 <= i < |r| ==> r[i] == RecordEvent(records[i], m, evidencePath, parseWmi, now)
  {
    if |records| == 0 then []
    else [RecordEvent(records[0], m, evidencePath, parseWmi, now)]
         + RecordEvents(records[1..], m, evidencePath, parseWmi, now)
  }

  /** `Parse` given the header record (or the reader's error on it) and the
      remaining rows. */
  function Parse(header: Result<seq<string>>, rows: seq<Row>, evidencePath: string,
                 parseWmi: string -> Option<Instant>, now: Instant): (r: Result<ParseResponse>)
    ensures header.Err? ==> r == Err(header.msg)
    ensures header.Ok? ==> r.Ok? && r.value.artifacts == []
                           && |r.value.events| == |ReadRecords(rows, |header.value|)|
    ensures header.Ok? ==> forall i :: 0 <= i < |r.value.events| ==>
              r.value.events[i] == RecordEvent(ReadRecords(rows, |header.value|)[i], ColumnMap(header.value),
                                               evidencePath, parseWmi, now)
  {
    match header
    case Err(e) => Err(e)
    case Ok(headers) =>
      var m := ColumnMap(headers);
      Ok(EventsResponse(RecordEvents(ReadRecords(rows, |headers|), m, evidencePath, parseWmi, now)))
  }

  /** A malformed row ends the file: nothing after it is read. */
  lemma MalformedRowStops(headers: seq<string>, good: seq<Row>, rest: seq<Row>, evidencePath: string,
                          parseWmi: string -> Option<Instant>, now: Instant)
    requires forall i :: 0 <= i < |good| ==> good[i].Fields? && |good[i].fields| == |headers|
    ensures Parse(Ok(headers), good + [Malformed] + rest, evidencePath, parseWmi, now)
            == Parse(Ok(headers), good, evidencePath, parseWmi, now)
  {
    ReadRecordsStops(good, rest, |headers|);
  }

  lemma {:induction false} ReadRecordsStops(good: seq<Row>, rest: seq<Row>, width: nat)
    requires forall i :: 0 <= i < |good| ==> good[i].Fields? && |good[i].fields| == width
    ensures ReadRecords(good + [Malformed] + rest, width) == ReadRecords(good, width)
  {
    if |good| > 0 {
      assert (good + [Malformed] + rest)[1..] == good[1..] + [Malformed] + rest;
      ReadRecordsStops(good[1..], rest, width);
    }
  }
}
