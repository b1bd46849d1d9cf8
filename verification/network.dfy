/** The line parsers of the live network collector
    (internal/plugin/network_windows.go).  Running `netstat -ano`, `arp -a`
    and `ipconfig /all` and decoding their output is outside this model: the
    input is the output's lines, already decoded and split, and the moment of
    collection is a parameter. */
module Network {
  import opened Wrappers
  import opened GoStr
  import opened Model
  import opened Seqs

  // The Chinese header words, as the UTF-8 bytes the decoded output holds.

  /** 协议 ("protocol"). */
  const ProtoZh: string := AsString([0xE5, 0x8D, 0x8F, 0xE8, 0xAE, 0xAE])

  /** 活动 ("active"). */
  const ActiveZh: string := AsString([0xE6, 0xB4, 0xBB, 0xE5, 0x8A, 0xA8])

  /** 接口: ("interface:"). */
  const InterfaceZh: string := AsString([0xE6, 0x8E, 0xA5, 0xE5, 0x8F, 0xA3, 0x3A])

  /** 物理地址 ("physical address"). */
  const PhysicalZh: string := AsString([0xE7, 0x89, 0xA9, 0xE7, 0x90, 0x86, 0xE5, 0x9C, 0xB0, 0xE5, 0x9D, 0x80])

  // ---------------------------------------------------------------------
  // netstat -ano

  datatype Conn = Conn(proto: string, local: string, foreign: string, state: string, pid: string)

  /** Header and blank lines of the netstat output. */
  predicate NetstatHeader(t: string) {
    t == "" || HasPrefix(t, "Proto") || HasPrefix(t, "Active") || HasPrefix(t, ProtoZh) || HasPrefix(t, ActiveZh)
  }

  /** One connection line.  The first three fields are the protocol and the
      two addresses; where the state and the process id come from depends on
      the protocol and on whether there are four fields or more. */
  function NetstatLine(line: string): (r: Option<Conn>)
    ensures r.None? <==> NetstatHeader(TrimSpace(line)) || |Fields(TrimSpace(line))| < 4
    ensures r.Some? ==> var f := Fields(TrimSpace(line));
                        && r.value.proto == f[0] && r.value.local == f[1] && r.value.foreign == f[2]
                        && (|f| == 4 ==> r.value.state == (if EqualFold(f[0], "UDP") then "N/A" else "UNKNOWN"))
                        && (|f| >= 5 ==> r.value.state == f[3])
  {
    var t := TrimSpace(line);
    if NetstatHeader(t) then None
    else
      var f := Fields(t);
      if |f| < 4 then None
      else if EqualFold(f[0], "UDP") then
        if |f| == 4 then Some(Conn(f[0], f[1], f[2], "N/A", f[3]))
        else Some(Conn(f[0], f[1], f[2], f[3], f[4]))
      else if |f| >= 5 then Some(Conn(f[0], f[1], f[2], f[3], f[4]))
      else Some(Conn(f[0], f[1], f[2], "UNKNOWN", f[3]))
  }

  /** Whatever the protocol, the process id is the last of the first five
      fields, and it is never blank. */
  lemma NetstatPidIsLastField(line: string)
    requires NetstatLine(line).Some?
    ensures var f := Fields(TrimSpace(line));
            var n := if |f| < 5 then |f| else 5;
            NetstatLine(line).value.pid == f[n - 1] && NetstatLine(line).value.pid != ""
  {
    var f := Fields(TrimSpace(line));
    assert |f| >= 4;
    assert IsWord(f[3]) && (|f| >= 5 ==> IsWord(f[4]));
    if |f| == 4 {
      assert NetstatLine(line).value.pid == f[3];
    } else {
      assert NetstatLine(line).value.pid == f[4];
    }
  }

  /** A line of white space only is skipped. */
  lemma BlankNetstatLine(line: string)
    requires forall i :: 0 <= i < |line| ==> IsSpace(line[i])
    ensures NetstatLine(line).None?
  {
    assert TrimLeftWhile(line, IsSpace) == "";
  }

  /** `e` carries detail `k` with value `v`. */
  predicate HasDetail(e: TimelineEvent, k: string, v: string) {
    k in e.details && e.details[k] == v
  }

  function ConnEvent(c: Conn, now: Instant): (e: TimelineEvent)
    ensures e.subject == c.foreign && HasDetail(e, "RemoteIP", c.foreign)
    ensures HasDetail(e, "EventID", "CONN") && e.source == "Network" && e.time == now
    ensures HasDetail(e, "PID", c.pid) && HasDetail(e, "State", c.state)
  {
    NewEvent("", now, "Network", "Network Connection", "Connect", c.foreign,
             map["Protocol" := c.proto, "LocalIP" := c.local, "RemoteIP" := c.foreign, "State" := c.state,
                 "PID" := c.pid, "Command" := "netstat -ano", "EventID" := "CONN"],
             PathRef("Live Command: netstat"))
  }

  /** The event of one netstat line, if it is a connection line. */
  function LineEvent(line: string, now: Instant): (r: Option<TimelineEvent>)
    ensures r.Some? <==> NetstatLine(line).Some?
    ensures r.Some? ==> r.value == ConnEvent(NetstatLine(line).value, now)
  {
    match NetstatLine(line)
    case None => None
    case Some(c) => Some(ConnEvent(c, now))
  }

  /** The events of `collectNetstat`: the event of each connection line, in
      the order of the lines. */
  function NetstatEvents(lines: seq<string>, now: Instant): (r: seq<TimelineEvent>)
    ensures r == FilterMap(lines, (line: string) => LineEvent(line, now))
    ensures |r| <= |lines|
    ensures forall i :: 0 <= i < |r| ==> HasDetail(r[i], "EventID", "CONN") && r[i].source == "Network"
  {
    if |lines| == 0 then []
    else
      var rest := NetstatEvents(lines[1..], now);
      match NetstatLine(lines[0])
      case None => rest
      case Some(c) =>
        var e := ConnEvent(c, now);
        assert forall i :: 0 < i <= |rest| ==> ([e] + rest)[i] == rest[i - 1];
        [e] + rest
  }

  // ---------------------------------------------------------------------
  // arp -a

  datatype ArpEntry = ArpEntry(iface: string, ip: string, mac: string, kind: string)

  predicate InterfaceLine(t: string) {
    HasPrefix(t, "Interface:") || HasPrefix(t, InterfaceZh)
  }

  /** One line of `arp -a` given the current interface line: the next
      interface, and the entry if the line is one. */
  function ArpStep(iface: string, line: string): (r: (string, Option<ArpEntry>))
    ensures InterfaceLine(TrimSpace(line)) ==> r == (TrimSpace(line), None)
    ensures !InterfaceLine(TrimSpace(line)) ==> r.0 == iface
    ensures r.1.Some? <==> && !InterfaceLine(TrimSpace(line)) && !HasPrefix(TrimSpace(line), "Internet")
                           && |Fields(TrimSpace(line))| >= 3
    ensures r.1.Some? ==> var f := Fields(TrimSpace(line));
                          r.1.value == ArpEntry(iface, f[0], f[1], f[2])
  {
    var t := TrimSpace(line);
    if t == "" then
      assert Fields(t) == [];
      (iface, None)
    else if InterfaceLine(t) then (t, None)
    else if HasPrefix(t, "Internet") then (iface, None)
    else
      var f := Fields(t);
      if |f| < 3 then (iface, None)
      else (iface, Some(ArpEntry(iface, f[0], f[1], f[2])))
  }

  function ArpEvent(a: ArpEntry, now: Instant): (e: TimelineEvent)
    ensures e.subject == a.ip && HasDetail(e, "IP", a.ip) && HasDetail(e, "Interface", a.iface)
    ensures HasDetail(e, "EventID", "ARP") && e.source == "Network" && e.time == now
  {
    NewEvent("", now, "Network", "ARP Entry", "Resolve", a.ip,
             map["Interface" := a.iface, "IP" := a.ip, "MAC" := a.mac, "Type" := a.kind, "EventID" := "ARP"],
             PathRef("Live Command: arp -a"))
  }

  /** The entries of `arp -a` output read from interface `iface` on. */
  function ArpEntries(iface: string, lines: seq<string>): (r: seq<ArpEntry>)
    ensures |r| <= |lines|
    decreases |lines|
  {
    if |lines| == 0 then []
    else
      var step := ArpStep(iface, lines[0]);
      Listed(step.1) + ArpEntries(step.0, lines[1..])
  }

  /** The interface in force after `lines`: the last interface line among
      them, trimmed, or `iface` when there is none. */
  function InterfaceAfter(iface: string, lines: seq<string>): string
    decreases |lines|
  {
    if |lines| == 0 then iface
    else
      var t := TrimSpace(lines[|lines| - 1]);
      if InterfaceLine(t) then t else InterfaceAfter(iface, lines[..|lines| - 1])
  }

  /** The fold is the generic reader driven by `ArpStep`. */
  lemma {:induction false} ArpEntriesTransduce(iface: string, lines: seq<string>)
    ensures ArpEntries(iface, lines) == Transduce(iface, lines, ArpStep)
    decreases |lines|
  {
    if |lines| > 0 {
      ArpEntriesTransduce(ArpStep(iface, lines[0]).0, lines[1..]);
    }
  }

  /** The state the reader is in after `lines` is the interface in force. */
  lemma {:induction false} InterfaceAfterIsState(iface: string, lines: seq<string>)
    ensures InterfaceAfter(iface, lines) == StateAfter(iface, lines, ArpStep)
    decreases |lines|
  {
    if |lines| > 0 {
      var init := lines[..|lines| - 1];
      assert lines == init + [lines[|lines| - 1]];
      InterfaceAfterIsState(iface, init);
      StateAfterSnoc(iface, init, lines[|lines| - 1], ArpStep);
      assert StateAfter(iface, lines, ArpStep) == ArpStep(InterfaceAfter(iface, init), lines[|lines| - 1]).0;
    }
  }

  /** Line by line, `arp -a` output yields the entries read so far followed
      by the entry of the next line, read under the interface the earlier
      lines left in force. */
  lemma {:induction false} ArpEntriesSnoc(iface: string, lines: seq<string>, line: string)
    ensures ArpEntries(iface, lines + [line])
         == ArpEntries(iface, lines) + Listed(ArpStep(InterfaceAfter(iface, lines), line).1)
  {
    ArpEntriesTransduce(iface, lines + [line]);
    ArpEntriesTransduce(iface, lines);
    TransduceSnoc(iface, lines, line, ArpStep);
    InterfaceAfterIsState(iface, lines);
  }

  /** Without interface lines every entry is attributed to the interface the
      walk started with. */
  lemma {:induction false} ArpKeepsInterface(iface: string, lines: seq<string>)
    requires forall i :: 0 <= i < |lines| ==> !InterfaceLine(TrimSpace(lines[i]))
    ensures forall i :: 0 <= i < |ArpEntries(iface, lines)| ==> ArpEntries(iface, lines)[i].iface == iface
    decreases |lines|
  {
    if |lines| > 0 {
      var tail := lines[1..];
      assert forall i :: 0 <= i < |tail| ==> tail[i] == lines[i + 1];
      ArpKeepsInterface(iface, tail);
      assert !InterfaceLine(TrimSpace(lines[0]));
      var step := ArpStep(iface, lines[0]);
      assert step.0 == iface;
      var rest := ArpEntries(iface, tail);
      var all := ArpEntries(iface, lines);
      assert all == if step.1.Some? then [step.1.value] + rest else rest;
      if step.1.Some? {
        assert step.1.value.iface == iface;
        forall i | 0 <= i < |all|
          ensures all[i].iface == iface
        {
          if i > 0 {
            assert all[i] == rest[i - 1];
          }
        }
      }
    }
  }

  /** An entry is attributed to the latest interface line before it. */
  lemma ArpAfterInterface(header: string, iface: string, lines: seq<string>)
    requires InterfaceLine(TrimSpace(header))
    requires forall i :: 0 <= i < |lines| ==> !InterfaceLine(TrimSpace(lines[i]))
    ensures forall i :: 0 <= i < |ArpEntries(iface, [header] + lines)| ==>
              ArpEntries(iface, [header] + lines)[i].iface == TrimSpace(header)
  {
    assert ([header] + lines)[1..] == lines;
    ArpKeepsInterface(TrimSpace(header), lines);
  }

  // ---------------------------------------------------------------------
  // ipconfig /all

  datatype ConfigEntry = ConfigEntry(adapter: string, key: string, value: string)

  /** An adapter header: not indented by three spaces and ending in ':'. */
  predicate AdapterHeader(line: string) {
    var t := TrimSpace(line);
    t != "" && !HasPrefix(line, "   ") && HasSuffix(t, ":")
  }

  predicate MentionsAddress(t: string) {
    Contains(t, "Physical Address") || Contains(t, PhysicalZh) || Contains(t, "IPv4")
  }

  lemma SliceLacks(r: string, s: string, c: char)
    requires IsSliceOf(r, s) && c !in s
    ensures c !in r
  {
    var k :| 0 <= k <= |s| - |r| && s[k..][..|r|] == r;
    forall j | 0 <= j < |r|
      ensures r[j] != c
    {
      assert r[j] == s[k + j];
    }
  }

  /** The value part of a "key . . . : value" line, cut before a '(' that is
      not its first character. */
  function ConfigValue(rest: string): (v: string)
    ensures '(' in v ==> |TrimSpace(rest)| > 0 && TrimSpace(rest)[0] == '('
    ensures '(' !in TrimSpace(rest) || TrimSpace(rest)[0] == '(' ==> v == TrimSpace(rest)
    ensures forall k :: 0 < k < |TrimSpace(rest)| && TrimSpace(rest)[k] == '(' && '(' !in TrimSpace(rest)[..k] ==>
              v == TrimSpace(TrimSpace(rest)[..k])
  {
    var val := TrimSpace(rest);
    var idx := IndexOf(val, '(');
    IndexOfIsFirst(val, '(');
    if idx > 0 then
      var cut := TrimSpace(val[..idx]);
      SliceLacks(cut, val[..idx], '(');
      cut
    else val
  }

  /** The key of a "key . . . : value" line: the text before the ':' without
      its dots. */
  function ConfigKey(left: string): (k: string)
    ensures '.' !in k
    ensures IsSliceOf(k, RemoveChar(left, '.'))
    ensures |k| > 0 ==> !IsSpace(k[0]) && !IsSpace(k[|k| - 1])
  {
    var k := TrimSpace(RemoveChar(left, '.'));
    SliceLacks(k, RemoveChar(left, '.'), '.');
    k
  }

  /** The (key, value) of an address line, split at its first ':'. */
  function ConfigPair(t: string): (r: Option<(string, string)>)
    ensures r.Some? <==> ':' in t
    ensures r.Some? ==> '.' !in r.value.0
  {
    var idx := IndexOf(t, ':');
    if idx < 0 then None
    else Some((ConfigKey(t[..idx]), ConfigValue(t[idx + 1..])))
  }

  /** The pair splits the line at its first ':': the key comes from the text
      before it, the value from the text after it. */
  lemma ConfigPairAtFirstColon(t: string, k: nat)
    requires k < |t| && t[k] == ':' && ':' !in t[..k]
    ensures ConfigPair(t) == Some((ConfigKey(t[..k]), ConfigValue(t[k + 1..])))
  {
    IndexOfIsFirst(t, ':');
  }

  /** One line of `ipconfig /all` given the current adapter: the next
      adapter, and an entry if the line is an address line of an adapter
      block. */
  function IpconfigStep(adapter: string, line: string): (r: (string, Option<ConfigEntry>))
    ensures AdapterHeader(line) ==> r == (TrimSuffix(TrimSpace(line), ":"), None)
    ensures !AdapterHeader(line) ==> r.0 == adapter
    ensures r.1.Some? <==> && !AdapterHeader(line) && adapter != ""
                           && MentionsAddress(TrimSpace(line)) && ':' in TrimSpace(line)
    ensures r.1.Some? ==> r.1.value.adapter == adapter && '.' !in r.1.value.key
  {
    var t := TrimSpace(line);
    if t == "" then
      assert !MentionsAddress(t) by { EmptyMentionsNothing(); }
      (adapter, None)
    else if AdapterHeader(line) then (TrimSuffix(t, ":"), None)
    else if adapter != "" && MentionsAddress(t) then
      match ConfigPair(t)
      case None => (adapter, None)
      case Some((key, val)) => (adapter, Some(ConfigEntry(adapter, key, val)))
    else (adapter, None)
  }

  lemma EmptyMentionsNothing()
    ensures !MentionsAddress("")
  {
    ShortNotContains("", "Physical Address");
    ShortNotContains("", PhysicalZh);
    ShortNotContains("", "IPv4");
  }

  function ConfigEvent(c: ConfigEntry, now: Instant): (e: TimelineEvent)
    ensures e.subject == c.adapter && HasDetail(e, "Adapter", c.adapter)
    ensures HasDetail(e, "Key", c.key) && HasDetail(e, "Value", c.value)
    ensures HasDetail(e, "EventID", "IPCFG") && e.source == "Network" && e.time == now
  {
    NewEvent("", now, "Network", "Interface Config", "Configure", c.adapter,
             map["Adapter" := c.adapter, "Key" := c.key, "Value" := c.value, "EventID" := "IPCFG"],
             PathRef("Live Command: ipconfig /all"))
  }

  /** The entries of `ipconfig /all` output read from adapter `adapter` on. */
  function IpconfigEntries(adapter: string, lines: seq<string>): (r: seq<ConfigEntry>)
    ensures |r| <= |lines|
    decreases |lines|
  {
    if |lines| == 0 then []
    else
      var step := IpconfigStep(adapter, lines[0]);
      Listed(step.1) + IpconfigEntries(step.0, lines[1..])
  }

  /** The adapter in force after `lines`: the name of the last adapter
      header among them, or `adapter` when there is none. */
  function AdapterAfter(adapter: string, lines: seq<string>): string
    decreases |lines|
  {
    if |lines| == 0 then adapter
    else
      var l := lines[|lines| - 1];
      if AdapterHeader(l) then TrimSuffix(TrimSpace(l), ":") else AdapterAfter(adapter, lines[..|lines| - 1])
  }

  /** The fold is the generic reader driven by `IpconfigStep`. */
  lemma {:induction false} IpconfigEntriesTransduce(adapter: string, lines: seq<string>)
    ensures IpconfigEntries(adapter, lines) == Transduce(adapter, lines, IpconfigStep)
    decreases |lines|
  {
    if |lines| > 0 {
      IpconfigEntriesTransduce(IpconfigStep(adapter, lines[0]).0, lines[1..]);
    }
  }

  /** The state the reader is in after `lines` is the adapter in force. */
  lemma {:induction false} AdapterAfterIsState(adapter: string, lines: seq<string>)
    ensures AdapterAfter(adapter, lines) == StateAfter(adapter, lines, IpconfigStep)
    decreases |lines|
  {
    if |lines| > 0 {
      var init := lines[..|lines| - 1];
      assert lines == init + [lines[|lines| - 1]];
      AdapterAfterIsState(adapter, init);
      StateAfterSnoc(adapter, init, lines[|lines| - 1], IpconfigStep);
      assert StateAfter(adapter, lines, IpconfigStep) == IpconfigStep(AdapterAfter(adapter, init), lines[|lines| - 1]).0;
    }
  }

  /** Line by line, `ipconfig /all` output yields the entries read so far
      followed by the entry of the next line, read under the adapter the
      earlier lines left in force. */
  lemma {:induction false} IpconfigEntriesSnoc(adapter: string, lines: seq<string>, line: string)
    ensures IpconfigEntries(adapter, lines + [line])
         == IpconfigEntries(adapter, lines) + Listed(IpconfigStep(AdapterAfter(adapter, lines), line).1)
  {
    IpconfigEntriesTransduce(adapter, lines + [line]);
    IpconfigEntriesTransduce(adapter, lines);
    TransduceSnoc(adapter, lines, line, IpconfigStep);
    AdapterAfterIsState(adapter, lines);
  }

  /** Lines before the first adapter header produce nothing. */
  lemma {:induction false} NothingBeforeAdapter(lines: seq<string>)
    requires forall i :: 0 <= i < |lines| ==> !AdapterHeader(lines[i])
    ensures IpconfigEntries("", lines) == []
    decreases |lines|
  {
    if |lines| > 0 {
      NothingBeforeAdapter(lines[1..]);
    }
  }

  function ArpEvents(entries: seq<ArpEntry>, now: Instant): (r: seq<TimelineEvent>)
    ensures |r| == |entries|
    ensures forall i :: 0 <= i < |r| ==> r[i] == ArpEvent(entries[i], now)
  {
    if |entries| == 0 then [] else [ArpEvent(entries[0], now)] + ArpEvents(entries[1..], now)
  }

  function ConfigEvents(entries: seq<ConfigEntry>, now: Instant): (r: seq<TimelineEvent>)
    ensures |r| == |entries|
    ensures forall i :: 0 <= i < |r| ==> r[i] == ConfigEvent(entries[i], now)
  {
    if |entries| == 0 then [] else [ConfigEvent(entries[0], now)] + ConfigEvents(entries[1..], now)
  }

  /** The events of the three collectors, in collection order: the netstat
      events, then the ARP events, then the ipconfig events.  Each collector
      reads the clock once, when it starts. */
  function CollectEvents(netstat: seq<string>, arp: seq<string>, ipconfig: seq<string>,
                         netstatAt: Instant, arpAt: Instant, ipconfigAt: Instant)
    : (r: seq<TimelineEvent>)
    ensures var n := |NetstatEvents(netstat, netstatAt)|;
            var m := |ArpEntries("", arp)|;
            && |r| == n + m + |IpconfigEntries("", ipconfig)|
            && r[..n] == NetstatEvents(netstat, netstatAt)
            && r[n..n + m] == ArpEvents(ArpEntries("", arp), arpAt)
            && r[n + m..] == ConfigEvents(IpconfigEntries("", ipconfig), ipconfigAt)
    ensures |r| <= |netstat| + |arp| + |ipconfig|
    ensures forall i :: 0 <= i < |r| ==> r[i].source == "Network"
  {
    var a := NetstatEvents(netstat, netstatAt);
    var b := ArpEvents(ArpEntries("", arp), arpAt);
    var c := ConfigEvents(IpconfigEntries("", ipconfig), ipconfigAt);
    ConcatSlices(a, b, c);
    AllFromNetwork(a, b);
    AllFromNetwork(a + b, c);
    a + b + c
  }

  predicate FromNetwork(es: seq<TimelineEvent>) {
    forall i :: 0 <= i < |es| ==> es[i].source == "Network"
  }

  lemma AllFromNetwork(a: seq<TimelineEvent>, b: seq<TimelineEvent>)
    requires FromNetwork(a) && FromNetwork(b)
    ensures FromNetwork(a + b)
  {
    forall i | 0 <= i < |a + b|
      ensures (a + b)[i].source == "Network"
    {
      if i >= |a| {
        assert (a + b)[i] == b[i - |a|];
      }
    }
  }
}
