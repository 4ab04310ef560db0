/** Server-sent events (internal/server/sse.go): what is written is read back
    unchanged by the parser of section 9.2.6 of the HTML Living Standard. */
module Sse {
  import opened Strings

  // ---------- text ----------

  predicate Free(s: string, c: char) {
    forall i | 0 <= i < |s| :: s[i] != c
  }

  predicate SingleLine(s: string) {
    Free(s, '\n') && Free(s, '\r')
  }

  function LinesOf(s: string): (ls: seq<string>)
    ensures ls != []
  {
    Split(s, '\n')
  }

  function Join(ls: seq<string>): string
    requires ls != []
  {
    if |ls| == 1 then ls[0] else ls[0] + "\n" + Join(ls[1..])
  }

  lemma {:induction false} JoinSplit(s: string)
    ensures Join(LinesOf(s)) == s
    ensures forall i | 0 <= i < |LinesOf(s)| :: Free(LinesOf(s)[i], '\n') && (Free(s, '\r') ==> Free(LinesOf(s)[i], '\r'))
    ensures Free(s, '\n') <==> |LinesOf(s)| == 1
  {
    if s != "" {
      var t := s[1..];
      var ls := LinesOf(t);
      JoinSplit(t);
      assert s == [s[0]] + t;
      assert Free(s, '\n') <==> s[0] != '\n' && Free(t, '\n');
      assert Free(s, '\r') ==> Free(t, '\r');
      if s[0] != '\n' {
        var ms := LinesOf(s);
        assert ms[0] == [s[0]] + ls[0] && ms[1..] == ls[1..];
        assert forall i | 0 < i < |ms| :: ms[i] == ls[i];
      } else {
        assert LinesOf(s)[1..] == ls;
      }
    }
  }

  // ---------- the writer ----------

  class Writer {
    var out: string

    constructor ()
      ensures out == ""
    {
      out := "";
    }

    method Print(s: string)
      modifies this
      ensures out == old(out) + s
    {
      out := out + s;
    }
  }

  /** One `data:` line per line of data. */
  function DataLines(ls: seq<string>): string {
    if ls == [] then "" else "data: " + ls[0] + "\n" + DataLines(ls[1..])
  }

  function EventLine(event: string): string {
    if event == "" then "" else "event: " + event + "\n"
  }

  /** A call of one of the two writers. */
  datatype Write = Event(event: string, data: string) | Data(line: string)

  /** The frame a call writes. */
  function Text(w: Write): string {
    match w
    case Event(event, data) => EventLine(event) + DataLines(LinesOf(data)) + "\n"
    case Data(line) => "data: " + line + "\n\n"
  }

  method WriteSSEEvent(w: Writer, event: string, data: string)
    modifies w
    ensures w.out == old(w.out) + Text(Event(event, data))
  {
    if event != "" {
      w.Print("event: " + event + "\n");
    }
    assert w.out == old(w.out) + EventLine(event);
    WriteLines(w, LinesOf(data));
    w.Print("\n");
    Gather(old(w.out), EventLine(event), DataLines(LinesOf(data)), "\n");
  }

  lemma Gather(a: string, b: string, c: string, d: string)
    ensures a + b + c + d == a + (b + c + d)
  {
  }

  method WriteLines(w: Writer, lines: seq<string>)
    modifies w
    ensures w.out == old(w.out) + DataLines(lines)
  {
    for i := 0 to |lines|
      invariant w.out + DataLines(lines[i..]) == old(w.out) + DataLines(lines)
    {
      LinesStep(w.out, lines, i);
      w.Print("data: " + lines[i] + "\n");
    }
    assert lines[|lines|..] == [] && w.out + "" == w.out;
  }

  lemma LinesStep(out: string, lines: seq<string>, i: nat)
    requires i < |lines|
    ensures out + DataLines(lines[i..]) == out + ("data: " + lines[i] + "\n") + DataLines(lines[i + 1..])
  {
    assert lines[i..][1..] == lines[i + 1..];
  }

  method WriteSSEData(w: Writer, line: string)
    modifies w
    ensures w.out == old(w.out) + Text(Data(line))
  {
    w.Print("data: " + line + "\n\n");
  }

  // ---------- the standard's parser ----------

  datatype Message = Message(event: string, data: string)

  /** The index of the first line end, or the length. */
  function LineEnd(s: string): (n: nat)
    ensures n <= |s| && SingleLine(s[..n])
    ensures n < |s| ==> s[n] == '\n' || s[n] == '\r'
  {
    if s == "" || s[0] == '\n' || s[0] == '\r' then 0
    else
      var n := LineEnd(s[1..]);
      assert s[..n + 1] == [s[0]] + s[1..][..n];
      n + 1
  }

  /** The complete lines of a stream; LF, CR and CR LF each end one. What
      follows the last line end is discarded. */
  function Lines(s: string): seq<string>
    decreases |s|
  {
    var n := LineEnd(s);
    if n == |s| then []
    else if s[n] == '\r' && n + 1 < |s| && s[n + 1] == '\n' then [s[..n]] + Lines(s[n + 2..])
    else [s[..n]] + Lines(s[n + 1..])
  }

  function Colon(line: string): (n: nat)
    ensures n <= |line|
  {
    if line == "" || line[0] == ':' then 0 else 1 + Colon(line[1..])
  }

  /** The value of a field: what follows the colon, less one leading space. */
  function FieldValue(line: string): string {
    var n := Colon(line);
    if n == |line| then "" else if n + 1 < |line| && line[n + 1] == ' ' then line[n + 2..] else line[n + 1..]
  }

  function FieldName(line: string): string {
    line[..Colon(line)]
  }

  /** Processes the lines with the current data and event type buffers. */
  function Interpret(lines: seq<string>, data: string, eventType: string): seq<Message> {
    if lines == [] then []
    else
      var line, rest := lines[0], lines[1..];
      if line == "" then
        if data == "" then Interpret(rest, "", "")
        else
          var text := if data[|data| - 1] == '\n' then data[..|data| - 1] else data;
          [Message(if eventType == "" then "message" else eventType, text)] + Interpret(rest, "", "")
      else if FieldName(line) == "event" then Interpret(rest, data, FieldValue(line))
      else if FieldName(line) == "data" then Interpret(rest, data + FieldValue(line) + "\n", eventType)
      else Interpret(rest, data, eventType)
  }

  function Parse(stream: string): seq<Message> {
    var s := if stream != "" && stream[0] == 0xFEFF as char then stream[1..] else stream;
    Interpret(Lines(s), "", "")
  }

  // ---------- what the calls mean ----------

  /** What may be written: names and log lines of one line, data without CR. */
  predicate Clean(w: Write) {
    match w
    case Event(event, data) => SingleLine(event) && Free(data, '\r')
    case Data(line) => SingleLine(line)
  }

  /** The message a call stands for; without a name it is a "message". */
  function Meaning(w: Write): Message {
    match w
    case Event(event, data) => Message(if event == "" then "message" else event, data)
    case Data(line) => Message("message", line)
  }

  /** Everything a sequence of calls writes. */
  function Stream(ws: seq<Write>): string {
    if ws == [] then "" else Text(ws[0]) + Stream(ws[1..])
  }

  function Meanings(ws: seq<Write>): seq<Message> {
    if ws == [] then [] else [Meaning(ws[0])] + Meanings(ws[1..])
  }

  // ---------- the lines of a stream ----------

  /** Nothing in the call cuts a line but a line feed in data or a log line. */
  predicate Readable(w: Write) {
    match w
    case Event(event, data) => SingleLine(event) && Free(data, '\r')
    case Data(line) => Free(line, '\r')
  }

  function Terminated(ls: seq<string>): string {
    if ls == [] then "" else ls[0] + "\n" + Terminated(ls[1..])
  }

  function DataFields(ls: seq<string>): seq<string> {
    if ls == [] then [] else ["data: " + ls[0]] + DataFields(ls[1..])
  }

  function NameField(event: string): seq<string> {
    if event == "" then [] else ["event: " + event]
  }

  /** The lines of a frame. Of a log line only the first gets the field name. */
  function FrameLines(w: Write): seq<string> {
    match w
    case Event(event, data) => NameField(event) + DataFields(LinesOf(data)) + [""]
    case Data(line) => ["data: " + LinesOf(line)[0]] + LinesOf(line)[1..] + [""]
  }

  function AllLines(ws: seq<Write>): seq<string> {
    if ws == [] then [] else FrameLines(ws[0]) + AllLines(ws[1..])
  }

  lemma {:induction false} TerminatedCat(a: seq<string>, b: seq<string>)
    ensures Terminated(a + b) == Terminated(a) + Terminated(b)
  {
    if a == [] {
      assert a + b == b;
    } else {
      assert (a + b)[1..] == a[1..] + b;
      TerminatedCat(a[1..], b);
      Assoc4(a[0], "\n", Terminated(a[1..]), Terminated(b));
    }
  }

  lemma {:induction false} TerminatedIsJoin(ls: seq<string>)
    requires ls != []
    ensures Terminated(ls) == Join(ls) + "\n"
  {
    if |ls| > 1 { TerminatedIsJoin(ls[1..]); }
  }

  lemma {:induction false} DataFieldsText(ls: seq<string>)
    ensures Terminated(DataFields(ls)) == DataLines(ls)
  {
    if ls != [] { DataFieldsText(ls[1..]); }
  }

  lemma NameFieldText(event: string)
    ensures Terminated(NameField(event)) == EventLine(event)
  {
  }

  lemma OneLine(line: string)
    ensures Terminated([line]) == line + "\n"
  {
  }

  lemma FrameText(w: Write)
    ensures Text(w) == Terminated(FrameLines(w))
  {
    match w
    case Event(event, data) =>
      TerminatedCat(NameField(event) + DataFields(LinesOf(data)), [""]);
      TerminatedCat(NameField(event), DataFields(LinesOf(data)));
      NameFieldText(event);
      DataFieldsText(LinesOf(data));
      OneLine("");
    case Data(line) =>
      var ls := LinesOf(line);
      JoinSplit(line);
      TerminatedIsJoin(ls);
      TerminatedCat(["data: " + ls[0]] + ls[1..], [""]);
      TerminatedCat(["data: " + ls[0]], ls[1..]);
      OneLine("");
      OneLine("data: " + ls[0]);
      LogText(ls[0], Terminated(ls[1..]), line);
  }

  lemma LogText(first: string, tail: string, line: string)
    requires first + "\n" + tail == line + "\n"
    ensures "data: " + first + "\n" + tail + "\n" == "data: " + line + "\n\n"
  {
    assert "data: " + first + "\n" + tail == "data: " + (first + "\n" + tail);
    assert "data: " + line + "\n\n" == "data: " + (line + "\n") + "\n";
  }

  lemma {:induction false} StreamText(ws: seq<Write>)
    ensures Stream(ws) == Terminated(AllLines(ws))
  {
    if ws != [] {
      FrameText(ws[0]);
      StreamText(ws[1..]);
      TerminatedCat(FrameLines(ws[0]), AllLines(ws[1..]));
    }
  }

  lemma PrefixSingle(prefix: string, value: string)
    requires SingleLine(prefix) && SingleLine(value)
    ensures SingleLine(prefix + value)
  {
  }

  lemma {:induction false} DataFieldsSingle(ls: seq<string>)
    requires forall l | l in ls :: SingleLine(l)
    ensures forall l | l in DataFields(ls) :: SingleLine(l)
  {
    if ls != [] {
      PrefixSingle("data: ", ls[0]);
      DataFieldsSingle(ls[1..]);
    }
  }

  lemma SplitSingle(s: string)
    requires Free(s, '\r')
    ensures forall l | l in LinesOf(s) :: SingleLine(l)
  {
    JoinSplit(s);
  }

  lemma FrameSingle(w: Write)
    requires Readable(w)
    ensures forall l | l in FrameLines(w) :: SingleLine(l)
  {
    match w
    case Event(event, data) =>
      SplitSingle(data);
      DataFieldsSingle(LinesOf(data));
      PrefixSingle("event: ", event);
    case Data(line) =>
      SplitSingle(line);
      PrefixSingle("data: ", LinesOf(line)[0]);
  }

  lemma {:induction false} LinesSingle(ws: seq<Write>)
    requires forall i | 0 <= i < |ws| :: Readable(ws[i])
    ensures forall l | l in AllLines(ws) :: SingleLine(l)
  {
    if ws != [] {
      FrameSingle(ws[0]);
      LinesSingle(ws[1..]);
    }
  }

  lemma {:induction false} LineEndAt(t: string, rest: string)
    requires SingleLine(t)
    ensures LineEnd(t + "\n" + rest) == |t|
  {
    var s := t + "\n" + rest;
    if t != "" {
      assert s[0] == t[0];
      assert s[1..] == t[1..] + "\n" + rest;
      LineEndAt(t[1..], rest);
    }
  }

  lemma FirstLine(t: string, rest: string)
    requires SingleLine(t)
    ensures Lines(t + "\n" + rest) == [t] + Lines(rest)
  {
    var s := t + "\n" + rest;
    LineEndAt(t, rest);
    assert s[..|t|] == t && s[|t| + 1..] == rest && s[|t|] == '\n';
  }

  lemma {:induction false} LinesOfTerminated(ls: seq<string>)
    requires forall l | l in ls :: SingleLine(l)
    ensures Lines(Terminated(ls)) == ls
  {
    if ls != [] {
      LinesOfTerminated(ls[1..]);
      FirstLine(ls[0], Terminated(ls[1..]));
      assert ls == [ls[0]] + ls[1..];
    }
  }

  lemma TextStart(w: Write)
    ensures Text(w) != "" && Text(w)[0] in {'e', 'd'}
  {
    match w
    case Event(event, data) =>
      var ls := LinesOf(data);
      assert DataLines(ls)[0] == 'd';
    case Data(line) =>
  }

  /** A readable stream is cut into exactly the lines that were written. */
  lemma ParseStream(ws: seq<Write>)
    requires forall i | 0 <= i < |ws| :: Readable(ws[i])
    ensures Parse(Stream(ws)) == Interpret(AllLines(ws), "", "")
  {
    if ws != [] {
      TextStart(ws[0]);
      assert Stream(ws)[0] == Text(ws[0])[0];
    }
    StreamText(ws);
    LinesSingle(ws);
    LinesOfTerminated(AllLines(ws));
  }

  // ---------- clean calls are read back ----------

  lemma {:induction false} ColonAt(name: string, rest: string)
    requires Free(name, ':')
    ensures Colon(name + ":" + rest) == |name|
  {
    var line := name + ":" + rest;
    if name != "" {
      assert line[0] == name[0];
      assert line[1..] == name[1..] + ":" + rest;
      ColonAt(name[1..], rest);
    }
  }

  lemma FieldLine(name: string, value: string)
    requires name in {"event", "data"}
    ensures FieldName(name + ": " + value) == name && FieldValue(name + ": " + value) == value
  {
    var line := name + ": " + value;
    ColonAt(name, " " + value);
    assert line == name + ":" + (" " + value);
    assert line[..|name|] == name && line[|name| + 1] == ' ' && line[|name| + 2..] == value;
  }

  lemma DataFieldLine(value: string)
    ensures FieldName("data: " + value) == "data" && FieldValue("data: " + value) == value
  {
    FieldLine("data", value);
    assert "data" + ": " + value == "data: " + value;
  }

  lemma EventFieldLine(value: string)
    ensures FieldName("event: " + value) == "event" && FieldValue("event: " + value) == value
  {
    FieldLine("event", value);
    assert "event" + ": " + value == "event: " + value;
  }

  /** One line is taken in and the rest goes on. */
  lemma DataLineRead(value: string, rest: seq<string>, data: string, eventType: string)
    ensures Interpret(["data: " + value] + rest, data, eventType) == Interpret(rest, data + value + "\n", eventType)
  {
    DataFieldLine(value);
    assert (["data: " + value] + rest)[1..] == rest;
  }

  lemma {:induction false} DataFieldsRead(ls: seq<string>, rest: seq<string>, data: string, eventType: string)
    ensures Interpret(DataFields(ls) + rest, data, eventType) == Interpret(rest, data + Terminated(ls), eventType)
  {
    if ls == [] {
      assert DataFields(ls) + rest == rest && data + Terminated(ls) == data;
    } else {
      assert DataFields(ls) + rest == ["data: " + ls[0]] + (DataFields(ls[1..]) + rest);
      DataLineRead(ls[0], DataFields(ls[1..]) + rest, data, eventType);
      DataFieldsRead(ls[1..], rest, data + ls[0] + "\n", eventType);
      Assoc4(data, ls[0], "\n", Terminated(ls[1..]));
    }
  }

  lemma NameRead(event: string, rest: seq<string>)
    ensures Interpret(NameField(event) + rest, "", "") == Interpret(rest, "", event)
  {
    if event == "" {
      assert NameField(event) + rest == rest;
    } else {
      EventFieldLine(event);
      assert (NameField(event) + rest)[1..] == rest;
    }
  }

  lemma BlankRead(rest: seq<string>, data: string, eventType: string)
    ensures Interpret([""] + rest, data + "\n", eventType)
         == [Message(if eventType == "" then "message" else eventType, data)] + Interpret(rest, "", "")
  {
    assert ([""] + rest)[1..] == rest;
    assert (data + "\n")[..|data|] == data;
  }

  lemma EventRead(event: string, data: string, rest: seq<string>)
    requires Clean(Event(event, data))
    ensures Interpret(FrameLines(Event(event, data)) + rest, "", "") == [Meaning(Event(event, data))] + Interpret(rest, "", "")
  {
    var ls := LinesOf(data);
    JoinSplit(data);
    TerminatedIsJoin(ls);
    assert "" + Terminated(ls) == data + "\n";
    Assoc4(NameField(event), DataFields(ls), [""], rest);
    NameRead(event, DataFields(ls) + ([""] + rest));
    DataFieldsRead(ls, [""] + rest, "", event);
    BlankRead(rest, data, event);
  }

  lemma FromEmpty(line: string)
    ensures "" + line + "\n" == line + "\n"
  {
  }

  lemma LogFrameLines(line: string, rest: seq<string>)
    requires SingleLine(line)
    ensures FrameLines(Data(line)) + rest == ["data: " + line] + ([""] + rest)
  {
    JoinSplit(line);
    Assoc4(["data: " + line], [], [""], rest);
    assert LinesOf(line)[1..] == [];
  }

  lemma LogLineRead(line: string, rest: seq<string>)
    requires SingleLine(line)
    ensures Interpret(FrameLines(Data(line)) + rest, "", "") == [Meaning(Data(line))] + Interpret(rest, "", "")
  {
    var tail := [""] + rest;
    LogFrameLines(line, rest);
    DataLineRead(line, tail, "", "");
    FromEmpty(line);
    BlankRead(rest, line, "");
  }

  /** A clean frame is read as the message it stands for, whatever follows. */
  lemma FrameRead(w: Write, rest: seq<string>)
    requires Clean(w)
    ensures Interpret(FrameLines(w) + rest, "", "") == [Meaning(w)] + Interpret(rest, "", "")
  {
    match w
    case Event(event, data) => EventRead(event, data, rest);
    case Data(line) => LogLineRead(line, rest);
  }

  lemma {:induction false} AllRead(ws: seq<Write>)
    requires forall i | 0 <= i < |ws| :: Clean(ws[i])
    ensures Interpret(AllLines(ws), "", "") == Meanings(ws)
  {
    if ws != [] {
      FrameRead(ws[0], AllLines(ws[1..]));
      AllRead(ws[1..]);
    }
  }

  // ---------- only clean calls are read back ----------

  predicate CleanMessage(m: Message) {
    SingleLine(m.event) && Free(m.data, '\r')
  }

  lemma {:induction false} LinesAreSingle(s: string)
    ensures forall i | 0 <= i < |Lines(s)| :: SingleLine(Lines(s)[i])
    decreases |s|
  {
    var n := LineEnd(s);
    if n < |s| {
      if s[n] == '\r' && n + 1 < |s| && s[n + 1] == '\n' { LinesAreSingle(s[n + 2..]); } else { LinesAreSingle(s[n + 1..]); }
    }
  }

  /** No parser output holds a CR, nor a line end in an event name. */
  lemma {:induction false} OutputClean(lines: seq<string>, data: string, eventType: string)
    requires forall i | 0 <= i < |lines| :: SingleLine(lines[i])
    requires Free(data, '\r') && SingleLine(eventType)
    ensures forall m | m in Interpret(lines, data, eventType) :: CleanMessage(m)
  {
    if lines != [] {
      var line, rest := lines[0], lines[1..];
      if line == "" {
        OutputClean(rest, "", "");
      } else if FieldName(line) == "event" {
        OutputClean(rest, data, FieldValue(line));
      } else if FieldName(line) == "data" {
        OutputClean(rest, data + FieldValue(line) + "\n", eventType);
      } else {
        OutputClean(rest, data, eventType);
      }
    }
  }

  /** How much data a line can add to what the parser puts out. */
  function Weight(line: string): nat {
    if FieldName(line) == "data" then |FieldValue(line)| + 1 else 0
  }

  function Weights(lines: seq<string>): nat {
    if lines == [] then 0 else Weight(lines[0]) + Weights(lines[1..])
  }

  /** The characters of all messages, and one more for each. */
  function OutputSize(ms: seq<Message>): nat {
    if ms == [] then 0 else |ms[0].data| + 1 + OutputSize(ms[1..])
  }

  lemma {:induction false} OutputBounded(lines: seq<string>, data: string, eventType: string)
    requires data == "" || data[|data| - 1] == '\n'
    ensures OutputSize(Interpret(lines, data, eventType)) <= |data| + Weights(lines)
  {
    if lines != [] {
      var line, rest := lines[0], lines[1..];
      if line == "" {
        OutputBounded(rest, "", "");
        if data != "" {
          var m := Interpret(lines, data, eventType);
          assert m[1..] == Interpret(rest, "", "");
        }
      } else if FieldName(line) == "event" {
        OutputBounded(rest, data, FieldValue(line));
      } else if FieldName(line) == "data" {
        OutputBounded(rest, data + FieldValue(line) + "\n", eventType);
      } else {
        OutputBounded(rest, data, eventType);
      }
    }
  }

  lemma {:induction false} WeightsCat(a: seq<string>, b: seq<string>)
    ensures Weights(a + b) == Weights(a) + Weights(b)
  {
    if a == [] {
      assert a + b == b;
    } else {
      assert (a + b)[1..] == a[1..] + b;
      WeightsCat(a[1..], b);
    }
  }

  function TotalLength(ls: seq<string>): nat {
    if ls == [] then 0 else |ls[0]| + TotalLength(ls[1..])
  }

  lemma {:induction false} JoinLength(ls: seq<string>)
    requires ls != []
    ensures |Join(ls)| == TotalLength(ls) + |ls| - 1
  {
    if |ls| > 1 { JoinLength(ls[1..]); }
  }

  lemma {:induction false} RawWeights(ls: seq<string>)
    ensures Weights(ls) <= TotalLength(ls)
  {
    if ls != [] { RawWeights(ls[1..]); }
  }

  lemma {:induction false} DataWeights(ls: seq<string>)
    ensures Weights(DataFields(ls)) == TotalLength(ls) + |ls|
  {
    if ls != [] {
      DataFieldLine(ls[0]);
      DataWeights(ls[1..]);
    }
  }

  lemma NameWeights(event: string)
    ensures Weights(NameField(event)) == 0
  {
    if event != "" { EventFieldLine(event); }
  }

  /** A frame weighs what its message does, less if a log line is broken. */
  lemma FrameWeight(w: Write)
    requires Readable(w)
    ensures if Clean(w) then Weights(FrameLines(w)) == |Meaning(w).data| + 1 else Weights(FrameLines(w)) < |Meaning(w).data| + 1
  {
    match w
    case Event(event, data) =>
      var ls := LinesOf(data);
      JoinSplit(data);
      JoinLength(ls);
      WeightsCat(NameField(event) + DataFields(ls), [""]);
      WeightsCat(NameField(event), DataFields(ls));
      NameWeights(event);
      DataWeights(ls);
    case Data(line) =>
      var ls := LinesOf(line);
      JoinSplit(line);
      JoinLength(ls);
      WeightsCat(["data: " + ls[0]] + ls[1..], [""]);
      WeightsCat(["data: " + ls[0]], ls[1..]);
      DataFieldLine(ls[0]);
      RawWeights(ls[1..]);
  }

  lemma {:induction false} StreamWeight(ws: seq<Write>)
    requires forall i | 0 <= i < |ws| :: Readable(ws[i])
    ensures Weights(AllLines(ws)) <= OutputSize(Meanings(ws))
    ensures (exists i | 0 <= i < |ws| :: !Clean(ws[i])) ==> Weights(AllLines(ws)) < OutputSize(Meanings(ws))
  {
    if ws != [] {
      FrameWeight(ws[0]);
      StreamWeight(ws[1..]);
      WeightsCat(FrameLines(ws[0]), AllLines(ws[1..]));
      assert Meanings(ws)[1..] == Meanings(ws[1..]);
      assert forall i | 0 < i < |ws| :: ws[i] == ws[1..][i - 1];
    }
  }

  lemma {:induction false} MeaningsAre(ws: seq<Write>)
    ensures |Meanings(ws)| == |ws| && forall i | 0 <= i < |ws| :: Meanings(ws)[i] == Meaning(ws[i])
  {
    if ws != [] { MeaningsAre(ws[1..]); }
  }

  /** Calls that are read back leave no CR and no cut event name. */
  lemma ReadBackReadable(ws: seq<Write>)
    requires Parse(Stream(ws)) == Meanings(ws)
    ensures forall i | 0 <= i < |ws| :: Readable(ws[i])
  {
    var s := Stream(ws);
    var cut := if s != "" && s[0] == 0xFEFF as char then s[1..] else s;
    LinesAreSingle(cut);
    OutputClean(Lines(cut), "", "");
    MeaningsAre(ws);
    forall i | 0 <= i < |ws| ensures Readable(ws[i]) {
      assert Meaning(ws[i]) in Meanings(ws);
    }
  }

  /** Round trip: a sequence of calls is parsed back into exactly the messages
      written, in order, if and only if every call was clean. */
  lemma RoundTrip(ws: seq<Write>)
    ensures Parse(Stream(ws)) == Meanings(ws) <==> forall i | 0 <= i < |ws| :: Clean(ws[i])
  {
    if forall i | 0 <= i < |ws| :: Clean(ws[i]) {
      ParseStream(ws);
      AllRead(ws);
    } else if Parse(Stream(ws)) == Meanings(ws) {
      ReadBackReadable(ws);
      ParseStream(ws);
      OutputBounded(AllLines(ws), "", "");
      StreamWeight(ws);
      assert false;
    }
  }
}
