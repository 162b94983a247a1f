/** Section 9.2.6 of the WHATWG HTML Living Standard, "Interpreting an event stream", for LF-terminated lines. */
module EventStreamStandard {
  import opened Text
  import opened ServerSentEvents

  datatype Message = Message(data: string, kind: string, lastId: string)

  /** The data buffer, the event type buffer, the last event ID buffer and the dispatched events. */
  datatype Stream = Stream(data: string, kind: string, lastId: string, out: seq<Message>)

  /** The field name before the first colon, and the value after it without one leading space. */
  function FieldName(line: string): string {
    Split(line, ':')[0]
  }

  function FieldValue(line: string): string {
    var n := |FieldName(line)|;
    if n + 1 < |line| && line[n + 1] == ' ' then line[n + 2..]
    else if n + 1 <= |line| then line[n + 1..]
    else ""
  }

  function Dispatch(s: Stream): Stream {
    if s.data == "" then s.(kind := "")
    else
      var data := if s.data[|s.data| - 1] == '\n' then s.data[..|s.data| - 1] else s.data;
      Stream("", "", s.lastId, s.out + [Message(data, if s.kind == "" then "message" else s.kind, s.lastId)])
  }

  function Field(s: Stream, name: string, value: string): Stream {
    if name == "event" then s.(kind := value)
    else if name == "data" then s.(data := s.data + value + "\n")
    else if name == "id" && '\0' !in value then s.(lastId := value)
    else s
  }

  function Line(s: Stream, line: string): Stream {
    if line == "" then Dispatch(s)
    else if line[0] == ':' then s
    else Field(s, FieldName(line), FieldValue(line))
  }

  function Lines(s: Stream, lines: seq<string>): Stream {
    if lines == [] then s else Line(Lines(s, lines[..|lines| - 1]), lines[|lines| - 1])
  }

  const START := Stream("", "", "", [])

  /** An incomplete last line is discarded. */
  function Interpret(text: string): Stream {
    var lines := Split(text, '\n');
    Lines(START, lines[..|lines| - 1])
  }

  // ── What the printer means to a conforming client ──

  /** The event ID that a client remembers after the first `k` events. */
  function LastId(events: seq<Event>, k: nat): string
    requires k <= |events|
  {
    if k == 0 then ""
    else if events[k - 1].id.Some? then PrintInt(events[k - 1].id.value)
    else LastId(events, k - 1)
  }

  function Messages(events: seq<Event>, k: nat, codec: Codec): seq<Message>
    requires k <= |events|
  {
    if k == 0 then []
    else Messages(events, k - 1, codec) + [MessageOf(events, k - 1, codec)]
  }

  function MessageOf(events: seq<Event>, k: nat, codec: Codec): Message
    requires k < |events|
  {
    Message(Json(events[k], codec), "a2ui", LastId(events, k + 1))
  }

  lemma {:induction false} SplitUnlines(lines: seq<string>, rest: string)
    requires forall l :: l in lines ==> '\n' !in l
    ensures Split(Unlines(lines) + rest, '\n') == lines + Split(rest, '\n')
  {
    if lines == [] {
      assert Unlines(lines) + rest == rest;
    } else {
      var front, last := lines[..|lines| - 1], lines[|lines| - 1];
      assert last in lines && forall l :: l in front ==> l in lines;
      var tail := last + ("\n" + rest);
      Regroup(Unlines(front), last, rest);
      SplitUnlines(front, tail);
      SplitAtNewline(last, rest);
      SnocThen(front, last, Split(rest, '\n'));
    }
  }

  lemma Regroup(a: string, b: string, c: string)
    ensures (a + b + "\n") + c == a + (b + ("\n" + c))
  {
  }

  lemma SnocThen(front: seq<string>, last: string, rest: seq<string>)
    ensures front + ([last] + rest) == (front + [last]) + rest
  {
  }

  /** Every line of a record, in order. */
  function RecordLines(e: Event, codec: Codec): seq<string> {
    Header(e) + ["data: " + Json(e, codec), ""]
  }

  function PrintedLines(events: seq<Event>, k: nat, codec: Codec): seq<string>
    requires k <= |events|
  {
    if k == 0 then [] else PrintedLines(events, k - 1, codec) + RecordLines(events[k - 1], codec)
  }

  lemma {:induction false} UnlinesAppend(a: seq<string>, b: seq<string>)
    ensures Unlines(a + b) == Unlines(a) + Unlines(b)
  {
    if b == [] {
      assert a + b == a;
    } else {
      assert (a + b)[..|a + b| - 1] == a + b[..|b| - 1];
      UnlinesAppend(a, b[..|b| - 1]);
    }
  }

  lemma RecordLinesAreLines(e: Event, codec: Codec)
    requires Carried(e, codec)
    ensures forall l :: l in RecordLines(e, codec) ==> '\n' !in l
  {
    JsonFacts(e, codec);
    forall l | l in Header(e) ensures '\n' !in l { HeaderLinesAreIgnored(e, l); }
  }

  lemma PrintedNext(events: seq<Event>, k: nat, codec: Codec)
    requires k < |events|
    ensures Printed(events[..k + 1], codec) == Printed(events[..k], codec) + Unlines(RecordLines(events[k], codec))
  {
    assert events[..k + 1][..k] == events[..k];
  }

  lemma {:induction false} PrintedIsUnlines(events: seq<Event>, k: nat, codec: Codec)
    requires k <= |events|
    ensures Printed(events[..k], codec) == Unlines(PrintedLines(events, k, codec))
  {
    if k == 0 {
      assert events[..0] == [];
    } else {
      PrintedIsUnlines(events, k - 1, codec);
      PrintedNext(events, k - 1, codec);
      UnlinesAppend(PrintedLines(events, k - 1, codec), RecordLines(events[k - 1], codec));
    }
  }

  lemma {:induction false} PrintedIsLines(events: seq<Event>, k: nat, codec: Codec)
    requires AllCarried(events, codec) && k <= |events|
    ensures Printed(events[..k], codec) == Unlines(PrintedLines(events, k, codec))
    ensures forall l :: l in PrintedLines(events, k, codec) ==> '\n' !in l
  {
    PrintedIsUnlines(events, k, codec);
    if k == 0 {
    } else {
      PrintedIsLines(events, k - 1, codec);
      RecordLinesAreLines(events[k - 1], codec);
    }
  }

  lemma {:induction false} LinesAppend(s: Stream, a: seq<string>, b: seq<string>)
    ensures Lines(s, a + b) == Lines(Lines(s, a), b)
  {
    if b == [] {
      assert a + b == a;
    } else {
      assert (a + b)[..|a + b| - 1] == a + b[..|b| - 1];
      LinesAppend(s, a, b[..|b| - 1]);
    }
  }

  lemma NamedField(name: string, value: string)
    requires ':' !in name
    ensures FieldName(name + ": " + value) == name && FieldValue(name + ": " + value) == value
  {
    var line := name + ": " + value;
    assert line == name + (": " + value);
    SplitAfter(name, ": " + value, ':');
    assert Split(": " + value, ':')[0] == "";
    assert name + "" == name;
    assert line[|name| + 1] == ' ' && line[|name| + 2..] == value;
  }

  lemma NoNul(n: int)
    ensures '\0' !in PrintInt(n)
  {
    PrintedDigitsAreDigits(if n < 0 then -n else n);
  }

  lemma FieldLine(s: Stream, name: string, value: string, line: string)
    requires name != "" && ':' !in name && line == name + ": " + value
    ensures Lines(s, [line]) == Field(s, name, value)
  {
    NamedField(name, value);
    LinesOne(s, line);
    assert line[0] == name[0];
  }

  lemma LinesOne(s: Stream, line: string)
    ensures Lines(s, [line]) == Line(s, line)
  {
    assert [line][..0] == [];
  }

  lemma EventLine(s: Stream)
    ensures Lines(s, ["event: a2ui"]) == s.(kind := "a2ui")
  {
    FieldLine(s, "event", "a2ui", "event: a2ui");
  }

  lemma IdLine(s: Stream, id: int)
    ensures Lines(s, ["id: " + PrintInt(id)]) == s.(lastId := PrintInt(id))
  {
    NoNul(id);
    FieldLine(s, "id", PrintInt(id), "id: " + PrintInt(id));
  }

  lemma DataLine(s: Stream, json: string)
    ensures Lines(s, ["data: " + json]) == s.(data := s.data + json + "\n")
  {
    FieldLine(s, "data", json, "data: " + json);
  }

  lemma BlankLine(s: Stream, json: string)
    requires s.data == json + "\n" && s.kind != ""
    ensures Lines(s, [""]) == Stream("", "", s.lastId, s.out + [Message(json, s.kind, s.lastId)])
  {
    LinesOne(s, "");
    assert s.data[..|s.data| - 1] == json;
  }

  lemma {:induction false} HeaderMeaning(s: Stream, e: Event)
    ensures Lines(s, Header(e))
         == s.(kind := "a2ui", lastId := if e.id.Some? then PrintInt(e.id.value) else s.lastId)
  {
    if e.id.Some? {
      IdLine(s, e.id.value);
      EventLine(s.(lastId := PrintInt(e.id.value)));
      LinesAppend(s, ["id: " + PrintInt(e.id.value)], ["event: a2ui"]);
    } else {
      EventLine(s);
      assert Header(e) == ["event: a2ui"];
    }
  }

  lemma RecordMeaning(s: Stream, e: Event, codec: Codec)
    requires s.data == "" && s.kind == ""
    ensures var id := if e.id.Some? then PrintInt(e.id.value) else s.lastId;
            Lines(s, RecordLines(e, codec))
            == Stream("", "", id, s.out + [Message(Json(e, codec), "a2ui", id)])
  {
    var id := if e.id.Some? then PrintInt(e.id.value) else s.lastId;
    BodyMeaning(s.(kind := "a2ui", lastId := id), Json(e, codec));
    HeaderMeaning(s, e);
    LinesAppend(s, Header(e), ["data: " + Json(e, codec), ""]);
  }

  lemma BodyMeaning(s: Stream, json: string)
    requires s.data == "" && s.kind != ""
    ensures Lines(s, ["data: " + json, ""]) == Stream("", "", s.lastId, s.out + [Message(json, s.kind, s.lastId)])
  {
    DataLine(s, json);
    assert "" + json == json;
    BlankLine(s.(data := json + "\n"), json);
    LinesAppend(s, ["data: " + json], [""]);
    assert ["data: " + json] + [""] == ["data: " + json, ""];
  }

  lemma {:induction false} PrintedMeaning(events: seq<Event>, k: nat, codec: Codec)
    requires k <= |events|
    ensures Lines(START, PrintedLines(events, k, codec))
         == Stream("", "", LastId(events, k), Messages(events, k, codec))
  {
    if k == 0 {
    } else {
      PrintedMeaning(events, k - 1, codec);
      var before := Stream("", "", LastId(events, k - 1), Messages(events, k - 1, codec));
      LinesAppend(START, PrintedLines(events, k - 1, codec), RecordLines(events[k - 1], codec));
      assert Lines(START, PrintedLines(events, k, codec)) == Lines(before, RecordLines(events[k - 1], codec));
      RecordMeaning(before, events[k - 1], codec);
    }
  }

  /** A conforming client dispatches one `a2ui` message per printed event, with its JSON text as data. */
  lemma StandardReadsPrinted(events: seq<Event>, codec: Codec)
    requires AllCarried(events, codec)
    ensures Interpret(Printed(events, codec)).out == Messages(events, |events|, codec)
  {
    var lines := PrintedLines(events, |events|, codec);
    assert events[..|events|] == events;
    PrintedIsLines(events, |events|, codec);
    SplitUnlines(lines, "");
    assert Unlines(lines) + "" == Unlines(lines);
    assert (lines + [""])[..|lines|] == lines;
    PrintedMeaning(events, |events|, codec);
  }

  /** The callbacks that a list of messages deserves. */
  function CallsForMessages(messages: seq<Message>, codec: Codec): seq<Call> {
    if messages == [] then []
    else
      CallsForMessages(messages[..|messages| - 1], codec) + Deliver(messages[|messages| - 1].data, codec)
  }

  /** Messages whose data deserve the listed calls deserve them in a row. */
  lemma {:induction false} MessagesDeserve(messages: seq<Message>, lists: seq<seq<Call>>, k: nat, codec: Codec)
    requires k <= |messages| == |lists|
    requires forall i :: 0 <= i < |messages| ==> Deliver(messages[i].data, codec) == lists[i]
    ensures CallsForMessages(messages[..k], codec) == Kept(lists, {}, k)
  {
    if k == 0 {
      assert messages[..0] == [];
    } else {
      var front, m := messages[..k - 1], messages[k - 1];
      MessagesDeserve(messages, lists, k - 1, codec);
      assert messages[..k] == front + [m];
      NextMessage(front, m, Kept(lists, {}, k - 1), lists[k - 1], codec);
    }
  }

  lemma NextMessage(before: seq<Message>, m: Message, calls: seq<Call>, more: seq<Call>, codec: Codec)
    requires CallsForMessages(before, codec) == calls && Deliver(m.data, codec) == more
    ensures CallsForMessages(before + [m], codec) == calls + more
  {
    CallsAppend(before, m, codec);
  }

  lemma {:induction false} MessageAt(events: seq<Event>, k: nat, codec: Codec)
    requires k <= |events|
    ensures |Messages(events, k, codec)| == k
    ensures forall i :: 0 <= i < k ==> Messages(events, k, codec)[i] == MessageOf(events, i, codec)
  {
    if k == 0 {
    } else {
      MessageAt(events, k - 1, codec);
    }
  }

  lemma MessagesDeserveAll(events: seq<Event>, codec: Codec)
    requires AllCarried(events, codec)
    ensures CallsForMessages(Messages(events, |events|, codec), codec) == Delivered(events, {})
  {
    var messages := Messages(events, |events|, codec);
    MessageAt(events, |events|, codec);
    forall i | 0 <= i < |messages| ensures Deliver(messages[i].data, codec) == CallLists(events)[i] {
      MessageDeserves(events, i, codec);
    }
    MessagesDeserve(messages, CallLists(events), |events|, codec);
    assert messages[..|events|] == messages;
  }

  lemma MessageDeserves(events: seq<Event>, k: nat, codec: Codec)
    requires AllCarried(events, codec) && k < |events|
    ensures Deliver(MessageOf(events, k, codec).data, codec) == CallsFor(events[k])
  {
    JsonFacts(events[k], codec);
  }

  lemma CallsAppend(messages: seq<Message>, m: Message, codec: Codec)
    ensures CallsForMessages(messages + [m], codec) == CallsForMessages(messages, codec) + Deliver(m.data, codec)
  {
    assert (messages + [m])[..|messages|] == messages;
  }

  /** The incremental reader agrees with the standard exactly when no record is cut off at its end. */
  lemma {:induction false} ReaderMeetsStandard(events: seq<Event>, chunks: seq<string>, codec: Codec)
    requires AllCarried(events, codec) && Concat(chunks) == Printed(events, codec)
    ensures AfterChunks(chunks, codec).calls == CallsForMessages(Interpret(Concat(chunks)).out, codec)
       <==> forall k: nat :: k < |events| ==> !CutOff(events, Starts(chunks), k, codec)
  {
    StandardReadsPrinted(events, codec);
    MessagesDeserveAll(events, codec);
    RoundTripIsExact(events, chunks, codec);
  }
}
