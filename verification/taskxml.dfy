/** The scheduled-task parser (internal/plugin/taskxml.go): one event per
    `<Exec>` action of a Task Scheduler XML file.  XML decoding is a
    parameter of the model. */
module TaskXml {
  import opened Wrappers
  import opened GoStr
  import opened Model
  import opened Text

  datatype Exec = Exec(command: string, arguments: string)

  /** The fields the parser reads from a decoded task. */
  datatype Task = Task(author: string, description: string, triggersRaw: string, execs: seq<Exec>)

  predicate CanParse(path: string, header: seq<Byte>) {
    |header| > 5 && Contains(AsString(header), "<?xml")
    && Contains(Lower(CleanSeparators(path)), "system32\\tasks")
  }

  /** A header in UTF-16LE (every odd byte zero from index 3 on, as for
      ASCII text, whether or not it opens with the byte-order mark FF FE)
      cannot contain the five contiguous bytes of "<?xml", so such task
      files are never selected. */
  lemma Utf16HeaderRejected(path: string, header: seq<Byte>)
    requires forall k :: 3 <= k < |header| && k % 2 == 1 ==> header[k] == 0
    ensures !CanParse(path, header)
  {
    var s := AsString(header);
    forall i | 0 <= i <= |s|
      ensures !HasPrefix(s[i..], "<?xml")
    {
      NoXmlAt(s, i);
    }
    assert !Contains(s, "<?xml");
  }

  lemma NoXmlAt(s: string, i: int)
    requires 0 <= i <= |s|
    requires forall k :: 3 <= k < |s| && k % 2 == 1 ==> s[k] == '\0'
    ensures !HasPrefix(s[i..], "<?xml")
  {
    if |s| - i >= 5 {
      var k := if i <= 3 then 3 else if i % 2 == 1 then i else i + 1;
      assert s[k] == '\0';
      assert s[i..][..5][k - i] == '\0';
      assert "<?xml"[k - i] != '\0';
    }
  }

  /** A concrete header of that shape: the byte-order mark, then "<?xml" in
      UTF-16LE. */
  lemma BomHeaderRejected(path: string)
    ensures !CanParse(path, [0xFF, 0xFE, 0x3C, 0, 0x3F, 0, 0x78, 0, 0x6D, 0, 0x6C, 0])
  {
    Utf16HeaderRejected(path, [0xFF, 0xFE, 0x3C, 0, 0x3F, 0, 0x78, 0, 0x6D, 0, 0x6C, 0]);
  }

  /** The labels of the trigger kinds mentioned in the raw trigger XML, in
      the fixed order boot, logon, time. */
  function TriggerLabels(raw: string): (r: seq<string>)
    ensures "AtBoot" in r <==> Contains(raw, "BootTrigger")
    ensures "AtLogon" in r <==> Contains(raw, "LogonTrigger")
    ensures "Scheduled" in r <==> Contains(raw, "TimeTrigger")
    ensures forall i :: 0 <= i < |r| ==> r[i] in ["AtBoot", "AtLogon", "Scheduled"]
    ensures forall i, j :: 0 <= i < j < |r| ==> Rank(r[i]) < Rank(r[j])
  {
    (if Contains(raw, "BootTrigger") then ["AtBoot"] else [])
    + (if Contains(raw, "LogonTrigger") then ["AtLogon"] else [])
    + (if Contains(raw, "TimeTrigger") then ["Scheduled"] else [])
  }

  function Rank(name: string): nat {
    if name == "AtBoot" then 0 else if name == "AtLogon" then 1 else 2
  }

  /** `simplifyTriggers`: the labels joined with ", ", or "Other/Manual"
      when no known trigger kind appears. */
  function SimplifyTriggers(raw: string): (r: string)
    ensures r == "Other/Manual" <==> TriggerLabels(raw) == []
    ensures TriggerLabels(raw) != [] ==> HasPrefix(r, TriggerLabels(raw)[0])
    ensures TriggerLabels(raw) != [] ==> r == Join(TriggerLabels(raw), ", ")
  {
    var labels := TriggerLabels(raw);
    if |labels| == 0 then "Other/Manual"
    else
      JoinStartsWithFirst(labels, ", ");
      assert Join(labels, ", ")[0] == labels[0][0] != 'O';
      Join(labels, ", ")
  }

  lemma JoinStartsWithFirst(parts: seq<string>, sep: string)
    requires |parts| > 0
    ensures HasPrefix(Join(parts, sep), parts[0])
  {
    if |parts| > 1 {
      assert Join(parts, sep) == parts[0] + (sep + Join(parts[1..], sep));
    }
  }

  /** A trigger block naming all three kinds, in any surrounding text,
      simplifies to all three labels in the fixed order. */
  lemma AllTriggers(a: string, b: string, c: string, d: string)
    ensures SimplifyTriggers(a + "BootTrigger" + b + "LogonTrigger" + c + "TimeTrigger" + d)
            == "AtBoot, AtLogon, Scheduled"
  {
    var raw := a + "BootTrigger" + b + "LogonTrigger" + c + "TimeTrigger" + d;
    assert Contains(raw, "BootTrigger") by {
      ContainsMiddle(a, "BootTrigger", b + "LogonTrigger" + c + "TimeTrigger" + d);
      assert raw == a + "BootTrigger" + (b + "LogonTrigger" + c + "TimeTrigger" + d);
    }
    assert Contains(raw, "LogonTrigger") by {
      ContainsMiddle(a + "BootTrigger" + b, "LogonTrigger", c + "TimeTrigger" + d);
      assert raw == (a + "BootTrigger" + b) + "LogonTrigger" + (c + "TimeTrigger" + d);
    }
    assert Contains(raw, "TimeTrigger") by {
      ContainsMiddle(a + "BootTrigger" + b + "LogonTrigger" + c, "TimeTrigger", d);
    }
    ThreeKinds(raw);
  }

  lemma ThreeKinds(raw: string)
    requires Contains(raw, "BootTrigger") && Contains(raw, "LogonTrigger") && Contains(raw, "TimeTrigger")
    ensures SimplifyTriggers(raw) == "AtBoot, AtLogon, Scheduled"
  {
    AllLabels(raw);
    JoinedLabels(raw);
    JoinThree("AtBoot", "AtLogon", "Scheduled", ", ");
  }

  lemma AllLabels(raw: string)
    requires Contains(raw, "BootTrigger") && Contains(raw, "LogonTrigger") && Contains(raw, "TimeTrigger")
    ensures TriggerLabels(raw) == ["AtBoot", "AtLogon", "Scheduled"]
  {
  }

  lemma JoinedLabels(raw: string)
    requires TriggerLabels(raw) == ["AtBoot", "AtLogon", "Scheduled"]
    ensures SimplifyTriggers(raw) == Join(["AtBoot", "AtLogon", "Scheduled"], ", ")
  {
  }

  lemma JoinThree(a: string, b: string, c: string, sep: string)
    ensures Join([a, b, c], sep) == a + sep + b + sep + c
  {
    assert [a, b, c][1..] == [b, c];
    assert [b, c][1..] == [c];
    assert Join([c], sep) == c;
    assert Join([b, c], sep) == b + sep + c;
    assert Join([a, b, c], sep) == a + sep + (b + sep + c);
  }

  /** Content in UTF-16LE with a byte-order mark (longer than 2 bytes and
      starting FF FE) is converted to UTF-8 before XML decoding. */
  function Prepare(content: seq<Byte>): (r: seq<Byte>)
    ensures !(|content| > 2 && content[0] == 0xFF && content[1] == 0xFE) ==> r == content
  {
    if |content| > 2 && content[0] == 0xFF && content[1] == 0xFE then AsBytes(CleanupUtf16(content))
    else content
  }

  /** The byte-order mark itself is decoded too, so the XML decoder sees
      the UTF-8 byte-order mark EF BB BF in front of the text. */
  lemma PrepareKeepsBom(cps: seq<int>)
    requires AllScalars(cps) && 0 !in cps && |cps| > 0
    ensures var content := UnitBytes(Utf16Encode([0xFEFF] + cps));
            Prepare(content) == [0xEF, 0xBB, 0xBF] + Utf8Encode(cps)
  {
    var all := [0xFEFF] + cps;
    assert AllScalars(all);
    var content := UnitBytes(Utf16Encode(all));
    BomBytes(cps);
    assert Prepare(content) == AsBytes(CleanupUtf16(content));
    CleanupUtf16RoundTrip(all);
    AsBytesAsString(Utf8Encode(all));
    assert Prepare(content) == Utf8Encode(all);
    assert all[1..] == cps;
    BomUtf8();
  }

  lemma BomUtf8()
    ensures Utf8EncodeOne(0xFEFF) == [0xEF, 0xBB, 0xBF]
  {
    assert 0xFEFF / 4096 == 15;
    assert (0xFEFF / 64) % 64 == 59;
    assert 0xFEFF % 64 == 63;
  }

  lemma BomBytes(cps: seq<int>)
    requires AllScalars(cps) && |cps| > 0
    ensures var content := UnitBytes(Utf16Encode([0xFEFF] + cps));
            |content| > 2 && content[0] == 0xFF && content[1] == 0xFE
  {
    var all := [0xFEFF] + cps;
    assert all[1..] == cps;
    assert Utf16Encode(all) == [0xFEFF] + Utf16Encode(cps);
    assert |Utf16Encode(cps)| >= 1;
  }

  /** The event of one `<Exec>` action: the command is the subject, and the
      details carry its arguments, the task's file name, author and
      description and its simplified triggers. */
  function ExecEvent(x: Exec, task: Task, id: string, modTime: Instant, evidencePath: string): (e: TimelineEvent)
    ensures e.id == id && e.time == modTime && e.subject == x.command && e.source == "TaskScheduler"
    ensures "arguments" in e.details && e.details["arguments"] == x.arguments
    ensures "task_name" in e.details && e.details["task_name"] == Base(evidencePath)
    ensures "author" in e.details && e.details["author"] == task.author
    ensures "description" in e.details && e.details["description"] == task.description
    ensures "triggers" in e.details && e.details["triggers"] == SimplifyTriggers(task.triggersRaw)
    ensures e.evidence == PathRef(evidencePath)
  {
    NewEvent(id, modTime, "TaskScheduler", "ScheduledTask", "Persistence Configured", x.command,
             map["arguments" := x.arguments, "task_name" := Base(evidencePath),
                 "author" := task.author, "description" := task.description,
                 "triggers" := SimplifyTriggers(task.triggersRaw)],
             PathRef(evidencePath))
  }

  /** `Parse` given the file content, the XML decoder, the file's
      modification time (absent when stat fails) and the current time. */
  function Parse(content: seq<Byte>, decode: seq<Byte> -> Result<Task>, modTime: Option<Instant>,
                 now: Instant, evidencePath: string): (r: Result<ParseResponse>)
    ensures decode(Prepare(content)).Err? ==> r == Err("xml parse failed: " + decode(Prepare(content)).msg)
    ensures decode(Prepare(content)).Ok? ==> r.Ok? && |r.value.events| == |decode(Prepare(content)).value.execs|
    ensures r.Ok? ==> forall i :: 0 <= i < |r.value.events| ==>
              && r.value.events[i].subject == decode(Prepare(content)).value.execs[i].command
              && r.value.events[i].time == modTime.GetOr(now)
              && r.value.events[i].id == r.value.events[0].id
    ensures r.Ok? ==> var task := decode(Prepare(content)).value;
              var t := modTime.GetOr(now);
              forall i :: 0 <= i < |r.value.events| ==>
                r.value.events[i] == ExecEvent(task.execs[i], task, "task-" + Base(evidencePath) + "-" + Itoa(UnixNano(t)), t, evidencePath)
  {
    match decode(Prepare(content))
    case Err(e) => Err("xml parse failed: " + e)
    case Ok(task) =>
      var t := modTime.GetOr(now);
      var id := "task-" + Base(evidencePath) + "-" + Itoa(UnixNano(t));
      Ok(EventsResponse(seq(|task.execs|, i requires 0 <= i < |task.execs| => ExecEvent(task.execs[i], task, id, t, evidencePath))))
  }
}
