/**
 SSE framing: what `writeSSE` writes, read back by the event stream interpretation of section 9.2.6
 of the WHATWG HTML Living Standard.
 */
module Sse {
  import opened Basics
  import opened Events

  // ---- the writer ------------------------------------------------------------------------------

  /** One event as the writer sees it: its ID, its type and its JSON, `None` if it does not marshal. */
  datatype Item = Item(id: string, typ: string, json: Option<string>)

  const LF: char := '\n'
  const CR: char := '\r'
  const NUL: char := '\0'
  const BOM: char := '\U{FEFF}'

  function FieldLine(name: string, value: string): string { name + ": " + value }
  function Ended(line: string): string { line + [LF] }

  function IDPart(id: string): string
  {
    if id != "" then Ended(FieldLine("id", id)) else ""
  }

  function BodyPart(typ: string, json: string): string
  {
    Ended(FieldLine("event", typ)) + Ended(FieldLine("data", json)) + Ended("")
  }

  function Frame(e: Item): string
  {
    if e.json.None? then "" else IDPart(e.id) + BodyPart(e.typ, e.json.value)
  }

  function Frames(items: seq<Item>): string
  {
    if items == [] then "" else Frame(items[0]) + Frames(items[1..])
  }

  // ---- the standard's reader -------------------------------------------------------------------

  /** Where the first line ends; the length of `s` if it does not. */
  function LineEnd(s: string): (i: nat)
    ensures i <= |s|
    ensures i < |s| ==> s[i] == LF || s[i] == CR
    ensures forall k :: 0 <= k < i ==> s[k] != LF && s[k] != CR
  {
    if s == "" || s[0] == LF || s[0] == CR then 0 else 1 + LineEnd(s[1..])
  }

  /** The lines of a stream, ended by CRLF, LF or CR; an unended rest is pending and is discarded. */
  function Lines(s: string): seq<string>
    decreases |s|
  {
    var i := LineEnd(s);
    if i == |s| then []
    else if s[i] == CR && i + 1 < |s| && s[i + 1] == LF then [s[..i]] + Lines(s[i + 2..])
    else [s[..i]] + Lines(s[i + 1..])
  }

  datatype Message = Message(typ: string, data: string, lastEventID: string)

  /** The reader's buffers and what it has dispatched. */
  datatype Reader = Reader(data: string, typ: string, idBuffer: string, dispatched: seq<Message>)

  function Dispatch(r: Reader): Reader
  {
    if r.data == "" then r.(typ := "")
    else
      var data := if r.data[|r.data| - 1] == LF then r.data[..|r.data| - 1] else r.data;
      var typ := if r.typ == "" then "message" else r.typ;
      Reader("", "", r.idBuffer, r.dispatched + [Message(typ, data, r.idBuffer)])
  }

  function Field(r: Reader, name: string, value: string): Reader
  {
    if name == "event" then r.(typ := value)
    else if name == "data" then r.(data := r.data + value + [LF])
    else if name == "id" then if NUL in value then r else r.(idBuffer := value)
    else r
  }

  function Colon(line: string): (i: nat)
    ensures i <= |line|
  {
    if line == "" || line[0] == ':' then 0 else 1 + Colon(line[1..])
  }

  function ReadLine(r: Reader, line: string): Reader
  {
    if line == "" then Dispatch(r)
    else
      var i := Colon(line);
      if i == 0 then r
      else if i == |line| then Field(r, line, "")
      else
        var rest := line[i + 1..];
        Field(r, line[..i], if rest != "" && rest[0] == ' ' then rest[1..] else rest)
  }

  function ReadLines(r: Reader, lines: seq<string>): Reader
    decreases |lines|
  {
    if lines == [] then r else ReadLines(ReadLine(r, lines[0]), lines[1..])
  }

  function Parse(stream: string): seq<Message>
  {
    var s := if stream != "" && stream[0] == BOM then stream[1..] else stream;
    ReadLines(Reader("", "", "", []), Lines(s)).dispatched
  }

  // ---- round trip ------------------------------------------------------------------------------

  predicate OneLine(s: string) { LF !in s && CR !in s }

  /** The strings the standard can carry: no line breaks anywhere, no NUL in the ID. */
  predicate Clean(e: Item)
  {
    OneLine(e.id) && NUL !in e.id && OneLine(e.typ) && (e.json.Some? ==> OneLine(e.json.value))
  }

  /** What a client should see: an ID sticks until the next one; a type is never empty. */
  function Expected(items: seq<Item>, lastID: string): seq<Message>
  {
    if items == [] then []
    else
      var e, rest := items[0], items[1..];
      if e.json.None? then Expected(rest, lastID)
      else
        var id := if e.id != "" then e.id else lastID;
        [MessageOf(e, id)] + Expected(rest, id)
  }

  lemma FirstLine(line: string, rest: string)
    requires OneLine(line)
    ensures Lines(Ended(line) + rest) == [line] + Lines(rest)
  {
    var s := Ended(line) + rest;
    assert s[|line|] == LF;
    assert forall k :: 0 <= k < |line| ==> s[k] == line[k] && line[k] in line;
    assert LineEnd(s) == |line|;
    assert s[..|line|] == line && s[|line| + 1..] == rest;
  }

  lemma {:induction false} ColonAfter(name: string, rest: string)
    requires ':' !in name
    ensures Colon(name + ":" + rest) == |name|
  {
    var line := name + ":" + rest;
    if name != "" {
      assert line[1..] == name[1..] + ":" + rest;
      assert line[0] == name[0] && name[0] in name;
      ColonAfter(name[1..], rest);
    }
  }

  lemma ReadField(r: Reader, name: string, value: string)
    requires ':' !in name && name != ""
    ensures ReadLine(r, FieldLine(name, value)) == Field(r, name, value)
  {
    var line := FieldLine(name, value);
    assert line == name + ":" + (" " + value);
    ColonAfter(name, " " + value);
    assert line[..|name|] == name && line[|name| + 1..] == " " + value;
  }

  lemma FieldLineIsOneLine(name: string, value: string)
    requires OneLine(name) && OneLine(value)
    ensures OneLine(FieldLine(name, value))
  {
    assert OneLine(": ");
  }

  function BodyLines(typ: string, json: string): seq<string>
  {
    [FieldLine("event", typ), FieldLine("data", json), ""]
  }

  function FrameLines(e: Item): seq<string>
  {
    if e.json.None? then []
    else (if e.id != "" then [FieldLine("id", e.id)] else []) + BodyLines(e.typ, e.json.value)
  }

  lemma LinesOfBody(typ: string, json: string, rest: string)
    requires OneLine(typ) && OneLine(json)
    ensures Lines(BodyPart(typ, json) + rest) == BodyLines(typ, json) + Lines(rest)
  {
    FieldLineIsOneLine("event", typ);
    FieldLineIsOneLine("data", json);
    hide Lines, FieldLine, Ended;
    var line1, line2 := FieldLine("event", typ), FieldLine("data", json);
    Regroup(Ended(line1), Ended(line2), Ended(""), rest);
    FirstLine("", rest);
    FirstLine(line2, Ended("") + rest);
    FirstLine(line1, Ended(line2) + (Ended("") + rest));
    Listing(line1, line2, "", Lines(rest));
  }

  lemma Regroup(a: string, b: string, c: string, d: string)
    ensures a + b + c + d == a + (b + (c + d))
  {
  }

  lemma Listing(a: string, b: string, c: string, rest: seq<string>)
    ensures [a] + ([b] + ([c] + rest)) == [a, b, c] + rest
  {
  }

  lemma LinesOfFrame(e: Item, rest: string)
    requires OneLine(e.id) && OneLine(e.typ) && (e.json.Some? ==> OneLine(e.json.value))
    ensures Lines(Frame(e) + rest) == FrameLines(e) + Lines(rest)
  {
    hide Lines, FieldLine, Ended, BodyPart, BodyLines, OneLine;
    if e.json.None? {
      assert "" + rest == rest;
      assert [] + Lines(rest) == Lines(rest);
    } else {
      var line, tail, body := FieldLine("id", e.id), BodyPart(e.typ, e.json.value) + rest, BodyLines(e.typ, e.json.value);
      LinesOfBody(e.typ, e.json.value, rest);
      assert Frame(e) + rest == IDPart(e.id) + tail;
      if e.id == "" {
        assert "" + tail == tail;
        assert [] + body == body;
      } else {
        assert OneLine("id") by { NameIsOneLine(); }
        FieldLineIsOneLine("id", e.id);
        FirstLine(line, tail);
        assert [line] + (body + Lines(rest)) == ([line] + body) + Lines(rest);
      }
    }
  }

  lemma NameIsOneLine()
    ensures OneLine("id")
  {
  }

  lemma {:induction false} ReadConcat(r: Reader, a: seq<string>, b: seq<string>)
    ensures ReadLines(r, a + b) == ReadLines(ReadLines(r, a), b)
    decreases |a|
  {
    if a == [] {
      assert a + b == b;
    } else {
      assert (a + b)[1..] == a[1..] + b;
      ReadConcat(ReadLine(r, a[0]), a[1..], b);
    }
  }

  function MessageOf(e: Item, id: string): Message
    requires e.json.Some?
  {
    Message(if e.typ == "" then "message" else e.typ, e.json.value, id)
  }

  lemma ReadBody(r: Reader, typ: string, json: string)
    requires r.data == "" && r.typ == ""
    ensures ReadLines(r, BodyLines(typ, json)) ==
            Reader("", "", r.idBuffer, r.dispatched + [Message(if typ == "" then "message" else typ, json, r.idBuffer)])
  {
    ReadField(r, "event", typ);
    var r2 := Field(r, "event", typ);
    ReadField(r2, "data", json);
    var r3 := Field(r2, "data", json);
    assert r3.data == json + [LF] && r3.data[..|json|] == json;
    assert ReadLine(r3, "") == Dispatch(r3);
    hide ReadLine, Field, FieldLine;
    ReadThree(r, FieldLine("event", typ), FieldLine("data", json), "");
  }

  lemma ReadThree(r: Reader, a: string, b: string, c: string)
    ensures ReadLines(r, [a, b, c]) == ReadLine(ReadLine(ReadLine(r, a), b), c)
  {
    hide ReadLine;
    assert [a, b, c][1..] == [b, c] && [b, c][1..] == [c] && [c][1..] == [];
    var r1 := ReadLine(r, a);
    var r2 := ReadLine(r1, b);
    assert ReadLines(r2, [c]) == ReadLine(r2, c);
    assert ReadLines(r1, [b, c]) == ReadLines(r2, [c]);
  }

  /** One frame, read from empty buffers, dispatches its event and leaves them empty. */
  lemma ReadFrame(lastID: string, dispatched: seq<Message>, e: Item)
    requires Clean(e) && e.json.Some?
    ensures var id := if e.id != "" then e.id else lastID;
      ReadLines(Reader("", "", lastID, dispatched), FrameLines(e)) == Reader("", "", id, dispatched + [MessageOf(e, id)])
  {
    var r0 := Reader("", "", lastID, dispatched);
    var body := BodyLines(e.typ, e.json.value);
    if e.id != "" {
      ReadField(r0, "id", e.id);
      var r1 := Field(r0, "id", e.id);
      ReadBody(r1, e.typ, e.json.value);
      assert r1 == r0.(idBuffer := e.id);
      ReadOne(r0, FieldLine("id", e.id), body);
    } else {
      ReadBody(r0, e.typ, e.json.value);
      assert [] + body == body;
    }
  }

  lemma ReadOne(r: Reader, line: string, rest: seq<string>)
    ensures ReadLines(r, [line] + rest) == ReadLines(ReadLine(r, line), rest)
  {
    assert ([line] + rest)[1..] == rest;
  }

  lemma {:induction false} ReadFrames(lastID: string, dispatched: seq<Message>, items: seq<Item>)
    requires forall i :: 0 <= i < |items| ==> Clean(items[i])
    ensures ReadLines(Reader("", "", lastID, dispatched), Lines(Frames(items))).dispatched == dispatched + Expected(items, lastID)
    decreases |items|
  {
    if items == [] {
      assert Lines("") == [];
    } else {
      assert Clean(items[0]);
      hide Lines, ReadLine, Frame, FieldLine, BodyLines, OneLine, MessageOf;
      var e, rest := items[0], items[1..];
      var r := Reader("", "", lastID, dispatched);
      LinesOfFrame(e, Frames(rest));
      ReadConcat(r, FrameLines(e), Lines(Frames(rest)));
      var tail := Lines(Frames(rest));
      if e.json.None? {
        assert ReadLines(r, FrameLines(e)) == r;
        ReadFrames(lastID, dispatched, rest);
      } else {
        ReadFrame(lastID, dispatched, e);
        var id := if e.id != "" then e.id else lastID;
        ReadFrames(id, dispatched + [MessageOf(e, id)], rest);
        hide ReadLines, Frames, FrameLines, Clean;
        Regroup3(dispatched, [MessageOf(e, id)], Expected(rest, id));
      }
    }
  }

  lemma Regroup3<T>(a: seq<T>, b: seq<T>, c: seq<T>)
    ensures a + b + c == a + (b + c)
  {
  }

  lemma {:induction false} NoBom(items: seq<Item>)
    ensures Frames(items) != "" ==> Frames(items)[0] != BOM
  {
    if items != [] && items[0].json.None? {
      NoBom(items[1..]);
    }
  }

  /** Reading back the frames of any clean events gives their types, data and IDs, in order. */
  lemma FramesRoundTrip(items: seq<Item>)
    requires forall i :: 0 <= i < |items| ==> Clean(items[i])
    ensures Parse(Frames(items)) == Expected(items, "")
  {
    NoBom(items);
    ReadFrames("", [], items);
  }

  /** The last event ID of each dispatched message is the newest non-empty ID written up to it. */
  function NewestID(items: seq<Item>): string
  {
    if items == [] then ""
    else
      var last := items[|items| - 1];
      if last.json.Some? && last.id != "" then last.id else NewestID(items[..|items| - 1])
  }

  lemma {:induction false} NewestIDFront(a: seq<Item>)
    requires a != []
    ensures NewestID(a) ==
            if NewestID(a[1..]) != "" then NewestID(a[1..])
            else if a[0].json.Some? then a[0].id else ""
  {
    if |a| > 1 {
      NewestIDFront(a[..|a| - 1]);
      assert a[..|a| - 1][1..] == a[1..][..|a| - 2];
    } else {
      assert a[..0] == [] && a[1..] == [];
    }
  }

  lemma {:induction false} LastMessageFrom(items: seq<Item>, e: Item, lastID: string)
    requires e.json.Some?
    ensures var all, newest := Expected(items + [e], lastID), NewestID(items + [e]);
      all != [] && all[|all| - 1].lastEventID == if newest != "" then newest else lastID
  {
    var all := items + [e];
    NewestIDFront(all);
    if items == [] {
      assert all == [e] && all[1..] == [];
      assert NewestID([]) == "" && Expected([], if e.id != "" then e.id else lastID) == [];
    } else {
      var id := if items[0].json.Some? && items[0].id != "" then items[0].id else lastID;
      assert all[1..] == items[1..] + [e] && all[0] == items[0];
      LastMessageFrom(items[1..], e, id);
    }
  }

  /** So a client that stops reading after any event resumes from the newest ID it was sent. */
  lemma LastMessageCarriesNewestID(items: seq<Item>, e: Item)
    requires e.json.Some?
    ensures var all := Expected(items + [e], "");
      all != [] && all[|all| - 1].lastEventID == NewestID(items + [e])
  {
    LastMessageFrom(items, e, "");
  }

  // ---- the handler -----------------------------------------------------------------------------

  function TypeName(t: EventType): string
  {
    match t
    case StateSnapshot => "STATE_SNAPSHOT"
    case LeaderChanged => "LEADER_CHANGED"
    case TermChanged => "TERM_CHANGED"
    case PeerJoined => "PEER_JOINED"
    case PeerRemoved => "PEER_REMOVED"
    case LogReplicated => "LOG_REPLICATED"
    case LogApplied => "LOG_APPLIED"
    case HeartbeatSent => "HEARTBEAT_SENT"
    case HeartbeatReceived => "HEARTBEAT_RECEIVED"
    case AppendEntriesSent => "APPEND_ENTRIES_SENT"
    case AppendEntriesResult => "APPEND_ENTRIES_RESULT"
    case AppendEntriesRecv => "APPEND_ENTRIES_RECEIVED"
    case VoteRequested => "VOTE_REQUESTED"
    case VoteGranted => "VOTE_GRANTED"
    case VoteRejected => "VOTE_REJECTED"
    case LeadershipTransfer => "LEADERSHIP_TRANSFER"
    case SnapshotInstall => "SNAPSHOT_INSTALL"
    case SnapshotCreated => "SNAPSHOT_CREATED"
    case FSMRestored => "FSM_RESTORED"
    case ConfigChanged => "CONFIG_CHANGED"
    case ProposalForwarded => "PROPOSAL_FORWARDED"
    case ProposalReceived => "PROPOSAL_RECEIVED"
    case ElectionStarted => "ELECTION_STARTED"
    case LeadershipLost => "LEADERSHIP_LOST"
    case NodeStatusChanged => "NODE_STATUS_CHANGED"
    case SyncComplete => "SYNC_COMPLETE"
  }

  /** The type a client takes a name for, by length and spelling. */
  function TypeOf(name: string): Option<EventType>
  {
    match |name|
    case 11 =>
      if name == "PEER_JOINED" then Some(PeerJoined)
      else if name == "LOG_APPLIED" then Some(LogApplied) else None
    case 12 =>
      if name == "TERM_CHANGED" then Some(TermChanged)
      else if name == "PEER_REMOVED" then Some(PeerRemoved)
      else if name == "VOTE_GRANTED" then Some(VoteGranted)
      else if name == "FSM_RESTORED" then Some(FSMRestored) else None
    case 13 =>
      if name == "VOTE_REJECTED" then Some(VoteRejected)
      else if name == "SYNC_COMPLETE" then Some(SyncComplete) else None
    case 14 =>
      if name == "STATE_SNAPSHOT" then Some(StateSnapshot)
      else if name == "LEADER_CHANGED" then Some(LeaderChanged)
      else if name == "LOG_REPLICATED" then Some(LogReplicated)
      else if name == "HEARTBEAT_SENT" then Some(HeartbeatSent)
      else if name == "VOTE_REQUESTED" then Some(VoteRequested)
      else if name == "CONFIG_CHANGED" then Some(ConfigChanged) else None
    case 15 => if name == "LEADERSHIP_LOST" then Some(LeadershipLost) else None
    case 16 =>
      if name == "SNAPSHOT_INSTALL" then Some(SnapshotInstall)
      else if name == "SNAPSHOT_CREATED" then Some(SnapshotCreated)
      else if name == "ELECTION_STARTED" then Some(ElectionStarted) else None
    case 17 => if name == "PROPOSAL_RECEIVED" then Some(ProposalReceived) else None
    case 18 =>
      if name == "HEARTBEAT_RECEIVED" then Some(HeartbeatReceived)
      else if name == "PROPOSAL_FORWARDED" then Some(ProposalForwarded) else None
    case 19 =>
      if name == "APPEND_ENTRIES_SENT" then Some(AppendEntriesSent)
      else if name == "LEADERSHIP_TRANSFER" then Some(LeadershipTransfer)
      else if name == "NODE_STATUS_CHANGED" then Some(NodeStatusChanged) else None
    case 21 => if name == "APPEND_ENTRIES_RESULT" then Some(AppendEntriesResult) else None
    case 23 => if name == "APPEND_ENTRIES_RECEIVED" then Some(AppendEntriesRecv) else None
    case _ => None
  }

  /** A few event types at a time, to keep each proof small. */
  function Group(t: EventType): nat
  {
    match t
    case StateSnapshot | LeaderChanged | TermChanged | PeerJoined => 0
    case PeerRemoved | LogReplicated | LogApplied | HeartbeatSent => 1
    case HeartbeatReceived | AppendEntriesSent | FSMRestored => 2
    case AppendEntriesResult | AppendEntriesRecv => 3
    case VoteRequested | VoteGranted | VoteRejected => 4
    case LeadershipTransfer | SnapshotInstall | SnapshotCreated => 5
    case ConfigChanged | ProposalForwarded => 6
    case ProposalReceived | ElectionStarted | LeadershipLost => 7
    case NodeStatusChanged | SyncComplete => 8
  }

  lemma GroupNamesAreClean0(t: EventType)
    requires Group(t) == 0
    ensures OneLine(TypeName(t)) && TypeName(t) != "" && TypeOf(TypeName(t)) == Some(t)
  {
  }

  lemma GroupNamesAreClean1(t: EventType)
    requires Group(t) == 1
    ensures OneLine(TypeName(t)) && TypeName(t) != "" && TypeOf(TypeName(t)) == Some(t)
  {
  }

  lemma GroupNamesAreClean2(t: EventType)
    requires Group(t) == 2
    ensures OneLine(TypeName(t)) && TypeName(t) != "" && TypeOf(TypeName(t)) == Some(t)
  {
  }

  lemma GroupNamesAreClean3(t: EventType)
    requires Group(t) == 3
    ensures OneLine(TypeName(t)) && TypeName(t) != "" && TypeOf(TypeName(t)) == Some(t)
  {
  }

  lemma GroupNamesAreClean4(t: EventType)
    requires Group(t) == 4
    ensures OneLine(TypeName(t)) && TypeName(t) != "" && TypeOf(TypeName(t)) == Some(t)
  {
  }

  lemma GroupNamesAreClean5(t: EventType)
    requires Group(t) == 5
    ensures OneLine(TypeName(t)) && TypeName(t) != "" && TypeOf(TypeName(t)) == Some(t)
  {
  }

  lemma GroupNamesAreClean6(t: EventType)
    requires Group(t) == 6
    ensures OneLine(TypeName(t)) && TypeName(t) != "" && TypeOf(TypeName(t)) == Some(t)
  {
  }

  lemma GroupNamesAreClean7(t: EventType)
    requires Group(t) == 7
    ensures OneLine(TypeName(t)) && TypeName(t) != "" && TypeOf(TypeName(t)) == Some(t)
  {
  }

  lemma GroupNamesAreClean8(t: EventType)
    requires Group(t) == 8
    ensures OneLine(TypeName(t)) && TypeName(t) != "" && TypeOf(TypeName(t)) == Some(t)
  {
  }

  /** Every type has a name that fits on a line, and the name reads back as the type. */
  lemma TypeNamesAreClean(t: EventType)
    ensures OneLine(TypeName(t)) && TypeName(t) != ""
    ensures TypeOf(TypeName(t)) == Some(t)
  {
    GroupsEnd(t);
    hide TypeName, TypeOf, OneLine, Group;
    match Group(t) {
      case 0 => GroupNamesAreClean0(t);
      case 1 => GroupNamesAreClean1(t);
      case 2 => GroupNamesAreClean2(t);
      case 3 => GroupNamesAreClean3(t);
      case 4 => GroupNamesAreClean4(t);
      case 5 => GroupNamesAreClean5(t);
      case 6 => GroupNamesAreClean6(t);
      case 7 => GroupNamesAreClean7(t);
      case _ => GroupNamesAreClean8(t);
    }
  }

  lemma GroupsEnd(t: EventType)
    ensures Group(t) <= 8
  {
  }

  function ItemOf(e: Event, marshal: Event -> Option<string>): Item
  {
    Item(e.id, TypeName(e.typ), marshal(e))
  }

  function ItemsOf(events: seq<Event>, marshal: Event -> Option<string>): seq<Item>
  {
    seq(|events|, i requires 0 <= i < |events| => ItemOf(events[i], marshal))
  }

  lemma {:induction false} FramesAppend(items: seq<Item>, e: Item)
    ensures Frames(items + [e]) == Frames(items) + Frame(e)
  {
    if items == [] {
      assert [e][1..] == [];
      assert Frame(e) + "" == Frame(e);
    } else {
      assert (items + [e])[1..] == items[1..] + [e];
      FramesAppend(items[1..], e);
    }
  }

  lemma BodyText(typ: string, json: string)
    ensures BodyPart(typ, json) == "event: " + typ + "\ndata: " + json + "\n\n"
  {
    assert FieldLine("event", typ) == "event: " + typ;
    assert FieldLine("data", json) == "data: " + json;
    assert Ended("") == "\n";
    Seven("event: ", typ, [LF], "data: ", json, [LF], "\n");
    assert [LF] + "data: " == "\ndata: " && [LF] + "\n" == "\n\n";
  }

  lemma Seven(a: string, b: string, c: string, d: string, e: string, f: string, g: string)
    ensures (a + b + c) + (d + e + f) + g == a + b + (c + d) + e + (f + g)
  {
  }

  /** The text of one event, none if it does not marshal. */
  ghost predicate IsText(text: string, e: Event, marshal: Event -> Option<string>)
  {
    if marshal(e).None? then text == ""
    else
      exists name :: TypeOf(name) == Some(e.typ) &&
        text == (if e.id == "" then "" else "id: " + e.id + "\n") + ("event: " + name + "\ndata: " + marshal(e).value + "\n\n")
  }

  lemma FrameIsText(e: Event, marshal: Event -> Option<string>)
    ensures IsText(Frame(ItemOf(e, marshal)), e, marshal)
  {
    if marshal(e).Some? {
      TypeNamesAreClean(e.typ);
      BodyText(TypeName(e.typ), marshal(e).value);
      hide TypeName, TypeOf, BodyPart, OneLine;
      assert IDPart(e.id) == if e.id == "" then "" else "id: " + e.id + "\n";
    }
  }

  /** Writes one event. */
  method WriteSSE(out: string, e: Event, marshal: Event -> Option<string>) returns (out': string)
    ensures out' == out + Frame(ItemOf(e, marshal)) && IsText(Frame(ItemOf(e, marshal)), e, marshal)
  {
    FrameIsText(e, marshal);
    hide IsText;
    var json := marshal(e);
    if json.None? {
      assert out + "" == out;
      return out;
    }
    hide Ended, FieldLine, TypeName, BodyPart;
    out' := out;
    if e.id != "" {
      out' := out' + Ended(FieldLine("id", e.id));
    }
    assert e.id == "" ==> out + "" == out;
    out' := out' + BodyPart(TypeName(e.typ), json.value);
    Regroup3(out, IDPart(e.id), BodyPart(TypeName(e.typ), json.value));
  }

  method WriteAll(out: string, events: seq<Event>, marshal: Event -> Option<string>, ghost sent: seq<Event>) returns (out': string)
    requires out == Frames(ItemsOf(sent, marshal))
    ensures out' == Frames(ItemsOf(sent + events, marshal))
  {
    hide Frames, Frame, ItemOf;
    out' := out;
    assert sent + events[..0] == sent;
    var i := 0;
    while i < |events|
      invariant 0 <= i <= |events|
      invariant out' == Frames(ItemsOf(sent + events[..i], marshal))
    {
      ghost var before := sent + events[..i];
      assert sent + events[..i + 1] == before + [events[i]];
      assert ItemsOf(before + [events[i]], marshal) == ItemsOf(before, marshal) + [ItemOf(events[i], marshal)];
      FramesAppend(ItemsOf(before, marshal), ItemOf(events[i], marshal));
      out' := WriteSSE(out', events[i], marshal);
      i := i + 1;
    }
    assert events[..i] == events;
  }

  /** The two events the handler makes itself, without IDs; `body` stands for the payload. */
  function StateEvent(body: nat): Event { Event("", StateSnapshot, "", 0, body) }
  function SyncEvent(body: nat): Event { Event("", SyncComplete, "", 0, body) }

  /** `handleSSEEvents`: the state, both replayed histories, the sync mark, then whatever the channel yields. */
  method Stream(state: nat, history: seq<Event>, batches: seq<Event>, sync: nat, live: seq<Event>,
                marshal: Event -> Option<string>) returns (out: string)
    ensures out == Frames(ItemsOf([Event("", StateSnapshot, "", 0, state)] + history + batches +
                                  [Event("", SyncComplete, "", 0, sync)] + live, marshal))
  {
    assert ItemsOf([], marshal) == [];
    var first, mark := StateEvent(state), SyncEvent(sync);
    out := WriteAll("", [first], marshal, []);
    assert [] + [first] == [first];
    out := WriteAll(out, history, marshal, [first]);
    out := WriteAll(out, batches, marshal, [first] + history);
    out := WriteAll(out, [mark], marshal, [first] + history + batches);
    out := WriteAll(out, live, marshal, [first] + history + batches + [mark]);
  }

  /** A client reads the handler's whole stream back: same events, same order, types and JSON as sent. */
  lemma StreamRoundTrip(events: seq<Event>, marshal: Event -> Option<string>)
    requires forall i :: 0 <= i < |events| ==> OneLine(events[i].id) && NUL !in events[i].id
    requires forall i :: 0 <= i < |events| && marshal(events[i]).Some? ==> OneLine(marshal(events[i]).value)
    ensures Parse(Frames(ItemsOf(events, marshal))) == Expected(ItemsOf(events, marshal), "")
  {
    forall i | 0 <= i < |events|
      ensures Clean(ItemsOf(events, marshal)[i])
    {
      TypeNamesAreClean(events[i].typ);
    }
    hide Clean;
    FramesRoundTrip(ItemsOf(events, marshal));
  }

  // ---- what is read, event by event ------------------------------------------------------------

  /** The events that marshal, in order. */
  function Marshalled(events: seq<Event>, marshal: Event -> Option<string>): seq<Event>
  {
    if events == [] then []
    else (if marshal(events[0]).Some? then [events[0]] else []) + Marshalled(events[1..], marshal)
  }

  /** The newest ID that is not empty. */
  function NewestEventID(events: seq<Event>): string
  {
    if events == [] then ""
    else if events[|events| - 1].id != "" then events[|events| - 1].id
    else NewestEventID(events[..|events| - 1])
  }

  lemma {:induction false} NewestEventIDFront(e: Event, rest: seq<Event>)
    ensures NewestEventID([e] + rest) == if NewestEventID(rest) != "" then NewestEventID(rest) else e.id
  {
    var all := [e] + rest;
    if rest == [] {
      assert all == [e] && all[..0] == [];
    } else {
      assert all[..|all| - 1] == [e] + rest[..|rest| - 1];
      NewestEventIDFront(e, rest[..|rest| - 1]);
    }
  }

  /** A message carries an event: its type, its JSON, and as last ID the newest one written by then. */
  predicate Carries(m: Message, e: Event, marshal: Event -> Option<string>, lastID: string)
  {
    TypeOf(m.typ) == Some(e.typ) && marshal(e) == Some(m.data) && m.lastEventID == lastID
  }

  lemma {:induction false} ExpectedCarries(events: seq<Event>, marshal: Event -> Option<string>, lastID: string)
    ensures var all, kept := Expected(ItemsOf(events, marshal), lastID), Marshalled(events, marshal);
      |all| == |kept| &&
      forall k :: 0 <= k < |kept| ==>
        var newest := NewestEventID(kept[..k + 1]);
        Carries(all[k], kept[k], marshal, if newest != "" then newest else lastID)
    decreases |events|
  {
    var items := ItemsOf(events, marshal);
    if events != [] {
      var e, rest := events[0], events[1..];
      assert items[0] == ItemOf(e, marshal) && items[1..] == ItemsOf(rest, marshal);
      if marshal(e).None? {
        ExpectedCarries(rest, marshal, lastID);
        assert Marshalled(events, marshal) == Marshalled(rest, marshal);
      } else {
        var id := if e.id != "" then e.id else lastID;
        ExpectedCarries(rest, marshal, id);
        TypeNamesAreClean(e.typ);
        hide TypeName, TypeOf, OneLine, ItemsOf;
        OneMoreCarried(Expected(items, lastID), Expected(items[1..], id), e, Marshalled(rest, marshal), marshal, lastID);
      }
    }
  }

  lemma OneMoreCarried(all: seq<Message>, tail: seq<Message>, e: Event, kept: seq<Event>, marshal: Event -> Option<string>, lastID: string)
    requires all != [] && all[1..] == tail && |tail| == |kept|
    requires Carries(all[0], e, marshal, if e.id != "" then e.id else lastID)
    requires forall k :: 0 <= k < |kept| ==>
               var newest := NewestEventID(kept[..k + 1]);
               Carries(tail[k], kept[k], marshal, if newest != "" then newest else if e.id != "" then e.id else lastID)
    ensures |all| == |[e] + kept|
    ensures forall k :: 0 <= k < |[e] + kept| ==>
              var newest := NewestEventID(([e] + kept)[..k + 1]);
              Carries(all[k], ([e] + kept)[k], marshal, if newest != "" then newest else lastID)
  {
    hide Carries;
    forall k | 0 <= k < |[e] + kept|
      ensures var newest := NewestEventID(([e] + kept)[..k + 1]);
        Carries(all[k], ([e] + kept)[k], marshal, if newest != "" then newest else lastID)
    {
      assert ([e] + kept)[..k + 1] == [e] + kept[..k];
      NewestEventIDFront(e, kept[..k]);
      if k == 0 {
        assert kept[..0] == [];
      } else {
        assert all[k] == tail[k - 1];
      }
    }
  }

  /**
   A client reads one message for every event that marshals, in order: each decodes to the event's type,
   carries its JSON, and has as last event ID the newest one written up to it.
   */
  lemma StreamReadsEvents(events: seq<Event>, marshal: Event -> Option<string>)
    requires forall i :: 0 <= i < |events| ==> OneLine(events[i].id) && NUL !in events[i].id
    requires forall i :: 0 <= i < |events| && marshal(events[i]).Some? ==> OneLine(marshal(events[i]).value)
    ensures var read, kept := Parse(Frames(ItemsOf(events, marshal))), Marshalled(events, marshal);
      |read| == |kept| && forall k :: 0 <= k < |kept| ==> Carries(read[k], kept[k], marshal, NewestEventID(kept[..k + 1]))
  {
    StreamRoundTrip(events, marshal);
    ExpectedCarries(events, marshal, "");
    hide Parse, Frames, Expected, ItemsOf, Carries, OneLine;
  }
}
