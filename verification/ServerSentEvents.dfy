/** The event stream of the copilot: the server's printer and the client's incremental reader. */
module ServerSentEvents {
  import opened Ordering
  import opened Text
  import opened Values

  type Payload = Row

  datatype Event = Event(kind: string, data: Payload, id: Option<int>)

  /** JSON text of payloads, as the server writes it and the client reads it. */
  datatype Codec = Codec(encode: Payload -> string, decode: string -> Option<Payload>)

  // ── The printer ──

  /** The event's own fields win over the type. */
  function PayloadOf(e: Event): Payload {
    map["type" := Str(e.kind)] + e.data
  }

  function Json(e: Event, codec: Codec): string {
    codec.encode(PayloadOf(e))
  }

  /** The event's text is one non-empty line that decodes to its payload. */
  predicate Carried(e: Event, codec: Codec) {
    var json := Json(e, codec);
    codec.decode(json) == Some(PayloadOf(e)) && json != "" && '\n' !in json
  }

  ghost predicate AllCarried(events: seq<Event>, codec: Codec) {
    forall e :: e in events ==> Carried(e, codec)
  }

  function Header(e: Event): seq<string> {
    (if e.id.Some? then ["id: " + PrintInt(e.id.value)] else []) + ["event: a2ui"]
  }

  function Unlines(lines: seq<string>): string {
    if lines == [] then "" else Unlines(lines[..|lines| - 1]) + lines[|lines| - 1] + "\n"
  }

  /** Header lines, one data line, and a blank line. */
  function Record(e: Event, codec: Codec): string {
    Unlines(Header(e) + ["data: " + Json(e, codec), ""])
  }

  function Join(sep: string, lines: seq<string>): string {
    if lines == [] then ""
    else if |lines| == 1 then lines[0]
    else Join(sep, lines[..|lines| - 1]) + sep + lines[|lines| - 1]
  }

  lemma {:induction false} JoinedLines(lines: seq<string>)
    requires lines != []
    ensures Join("\n", lines) + "\n" == Unlines(lines)
  {
    if |lines| == 1 {
      assert Unlines(lines[..0]) == "";
    } else {
      JoinedLines(lines[..|lines| - 1]);
    }
  }

  method ToSse(e: Event, codec: Codec) returns (text: string)
    ensures text == Record(e, codec)
  {
    var lines: seq<string> := [];
    if e.id.Some? {
      lines := lines + ["id: " + PrintInt(e.id.value)];
    }
    lines := lines + ["event: a2ui"];
    var payload := map["type" := Str(e.kind)] + e.data;
    lines := lines + ["data: " + codec.encode(payload)];
    lines := lines + [""];
    assert lines == Header(e) + ["data: " + Json(e, codec), ""];
    JoinedLines(lines);
    text := Join("\n", lines) + "\n";
  }

  /** What the server sends for a list of events. */
  function Printed(events: seq<Event>, codec: Codec): string {
    if events == [] then "" else Printed(events[..|events| - 1], codec) + Record(events[|events| - 1], codec)
  }

  // ── The reader ──

  /** A callback that the reader makes. */
  datatype Call = OnEvent(kind: Option<Value>, data: Payload) | OnDone

  function TypeOf(p: Payload): Option<Value> {
    if "type" in p then Some(p["type"]) else None
  }

  function Deliver(data: string, codec: Codec): seq<Call> {
    match codec.decode(data)
    case None => []
    case Some(p) => [OnEvent(TypeOf(p), p)] + if TypeOf(p) == Some(Str("done")) then [OnDone] else []
  }

  /** The unfinished line, the data line waiting for its blank line, and the callbacks so far. */
  datatype Client = Client(line: string, pending: string, calls: seq<Call>)

  const DATA := "data: "

  function EndLine(s: Client, codec: Codec): Client {
    if StartsWith(s.line, DATA) then Client("", s.line[6..], s.calls)
    else if s.line == "" && s.pending != "" then Client("", "", s.calls + Deliver(s.pending, codec))
    else s.(line := "")
  }

  function Feed(s: Client, c: char, codec: Codec): Client {
    if c == '\n' then EndLine(s, codec) else s.(line := s.line + [c])
  }

  function FeedAll(s: Client, text: string, codec: Codec): Client
    decreases |text|
  {
    if text == "" then s else FeedAll(Feed(s, text[0], codec), text[1..], codec)
  }

  /** A new chunk makes the reader forget the data line of an unfinished record. */
  function Forget(s: Client): Client {
    s.(pending := "")
  }

  const IDLE := Client("", "", [])

  function AfterChunks(chunks: seq<string>, codec: Codec): Client {
    if chunks == [] then IDLE
    else FeedAll(Forget(AfterChunks(chunks[..|chunks| - 1], codec)), chunks[|chunks| - 1], codec)
  }

  function EndLines(s: Client, lines: seq<string>, codec: Codec): Client
    decreases |lines|
  {
    if lines == [] then s else EndLines(EndLine(s.(line := lines[0]), codec), lines[1..], codec)
  }

  /** Going through all parts but the last, which stays in the buffer. */
  function EndParts(s: Client, parts: seq<string>, codec: Codec): Client
    requires parts != []
  {
    EndLines(s.(line := ""), parts[..|parts| - 1], codec).(line := parts[|parts| - 1])
  }

  lemma EndFirstPart(s: Client, parts: seq<string>, codec: Codec)
    requires parts != []
    ensures EndParts(s, [s.line] + parts, codec) == EndParts(EndLine(s, codec), parts, codec)
  {
    var all := [s.line] + parts;
    assert all[..|all| - 1] == [s.line] + parts[..|parts| - 1];
    assert ([s.line] + parts[..|parts| - 1])[1..] == parts[..|parts| - 1];
    assert s.(line := "").(line := s.line) == s;
  }

  lemma SplitAtNewline(line: string, rest: string)
    requires '\n' !in line
    ensures Split(line + ("\n" + rest), '\n') == [line] + Split(rest, '\n')
  {
    SplitAfter(line, "\n" + rest, '\n');
    assert ("\n" + rest)[1..] == rest && line + "" == line;
  }

  /** Splitting the buffer and going through its lines is reading the chunk character by character. */
  lemma {:induction false} SplittingIsFeeding(s: Client, text: string, codec: Codec)
    requires '\n' !in s.line
    ensures var parts := Split(s.line + text, '\n');
            FeedAll(s, text, codec) == EndParts(s, parts, codec) && '\n' !in parts[|parts| - 1]
    decreases |text|
  {
    if text == "" {
      SplitAfter(s.line, "", '\n');
      assert Split(s.line + text, '\n') == [s.line] by { assert s.line + "" == s.line; }
    } else if text[0] == '\n' {
      var rest := text[1..];
      SplittingIsFeeding(EndLine(s, codec), rest, codec);
      assert "" + rest == rest && text == "\n" + rest;
      SplitAtNewline(s.line, rest);
      EndFirstPart(s, Split(rest, '\n'), codec);
    } else {
      var next := s.(line := s.line + [text[0]]);
      assert next.line + text[1..] == s.line + text;
      SplittingIsFeeding(next, text[1..], codec);
    }
  }

  /** The read loop: what it calls and what it leaves in its buffer. */
  method ReadLoop(chunks: seq<string>, codec: Codec) returns (calls: seq<Call>, buffer: string)
    ensures var end := AfterChunks(chunks, codec); calls == end.calls && buffer == end.line
  {
    calls, buffer := [], "";
    var k := 0;
    while k < |chunks|
      invariant 0 <= k <= |chunks|
      invariant '\n' !in buffer
      invariant var s := AfterChunks(chunks[..k], codec); calls == s.calls && buffer == s.line
    {
      ghost var before := Client(buffer, "", calls);
      SplittingIsFeeding(before, chunks[k], codec);
      assert chunks[..k + 1][..k] == chunks[..k];
      buffer := buffer + chunks[k];
      var lines := Split(buffer, '\n');
      buffer := lines[|lines| - 1];
      lines := lines[..|lines| - 1];
      var currentData := "";
      for i := 0 to |lines|
        invariant EndLines(Client("", currentData, calls), lines[i..], codec)
               == EndLines(before.(line := ""), lines, codec)
      {
        var line := lines[i];
        assert lines[i..][1..] == lines[i + 1..];
        ghost var next := EndLine(Client(line, currentData, calls), codec);
        ghost var were := calls;
        if StartsWith(line, DATA) {
          currentData := line[6..];
        } else if line == "" && currentData != "" {
          match codec.decode(currentData) {
            case Some(parsed) =>
              calls := calls + [OnEvent(TypeOf(parsed), parsed)];
              if TypeOf(parsed) == Some(Str("done")) {
                calls := calls + [OnDone];
              }
            case None =>
          }
          assert calls == were + Deliver(currentData, codec);
          currentData := "";
        }
        assert next == Client("", currentData, calls);
      }
      k := k + 1;
    }
    assert chunks[..|chunks|] == chunks;
  }

  // ── Chunks as cut positions ──

  function Concat(chunks: seq<string>): string {
    if chunks == [] then "" else Concat(chunks[..|chunks| - 1]) + chunks[|chunks| - 1]
  }

  /** The positions in the text at which a chunk starts. */
  function Starts(chunks: seq<string>): set<nat> {
    if chunks == [] then {}
    else Starts(chunks[..|chunks| - 1]) + {|Concat(chunks[..|chunks| - 1])|}
  }

  /** The reader after `k` characters, when chunks start at `cuts`. */
  function Reading(text: string, cuts: set<nat>, k: nat, codec: Codec): Client
    requires k <= |text|
  {
    if k == 0 then IDLE
    else
      var s := Reading(text, cuts, k - 1, codec);
      Feed(if k - 1 in cuts then Forget(s) else s, text[k - 1], codec)
  }

  lemma {:induction false} FeedOneMore(s: Client, text: string, c: char, codec: Codec)
    ensures FeedAll(s, text + [c], codec) == Feed(FeedAll(s, text, codec), c, codec)
    decreases |text|
  {
    if text == "" {
      assert (text + [c])[1..] == "";
    } else {
      assert (text + [c])[1..] == text[1..] + [c];
      FeedOneMore(Feed(s, text[0], codec), text[1..], c, codec);
    }
  }

  lemma {:induction false} SameReading(text: string, cuts: set<nat>, text': string, cuts': set<nat>, k: nat,
                                       codec: Codec)
    requires k <= |text| && k <= |text'| && text[..k] == text'[..k]
    requires forall i :: 0 <= i < k ==> (i in cuts <==> i in cuts')
    ensures Reading(text, cuts, k, codec) == Reading(text', cuts', k, codec)
  {
    if k == 0 {
    } else {
      assert text[k - 1] == text[..k][k - 1] == text'[..k][k - 1] == text'[k - 1];
      assert text[..k - 1] == text[..k][..k - 1] == text'[..k][..k - 1] == text'[..k - 1];
      SameReading(text, cuts, text', cuts', k - 1, codec);
    }
  }

  lemma {:induction false} ReadingOneChunk(text: string, cuts: set<nat>, from: nat, n: nat, codec: Codec)
    requires from + n <= |text| && from in cuts && forall i :: from < i < from + n ==> i !in cuts
    ensures Forget(Reading(text, cuts, from + n, codec))
         == Forget(FeedAll(Forget(Reading(text, cuts, from, codec)), text[from..from + n], codec))
    ensures n > 0 ==>
              Reading(text, cuts, from + n, codec)
              == FeedAll(Forget(Reading(text, cuts, from, codec)), text[from..from + n], codec)
  {
    if n == 0 {
    } else {
      ReadingOneChunk(text, cuts, from, n - 1, codec);
      var s := Forget(Reading(text, cuts, from, codec));
      FeedOneMore(s, text[from..from + n - 1], text[from + n - 1], codec);
      assert text[from..from + n] == text[from..from + n - 1] + [text[from + n - 1]];
    }
  }

  lemma {:induction false} StartsWithin(chunks: seq<string>)
    ensures forall i :: i in Starts(chunks) ==> i <= |Concat(chunks)|
  {
    if chunks == [] {
    } else {
      StartsWithin(chunks[..|chunks| - 1]);
    }
  }

  /** Any chunking of a text is the text read with forgetting at the cuts. */
  lemma {:induction false} ChunksAreCuts(chunks: seq<string>, codec: Codec)
    ensures var text := Concat(chunks);
            Forget(AfterChunks(chunks, codec)) == Forget(Reading(text, Starts(chunks), |text|, codec))
  {
    if chunks == [] {
    } else {
      var front, last := chunks[..|chunks| - 1], chunks[|chunks| - 1];
      var before, text := Concat(front), Concat(chunks);
      ChunksAreCuts(front, codec);
      StartsWithin(front);
      assert text[..|before|] == before[..|before|];
      SameReading(before, Starts(front), text, Starts(chunks), |before|, codec);
      ReadingOneChunk(text, Starts(chunks), |before|, |last|, codec);
      assert text[|before|..|before| + |last|] == last;
    }
  }

  // ── Reading what was printed ──

  /** The part stands in the text between the two positions. */
  ghost predicate At(text: string, from: nat, part: string, to: nat) {
    from + |part| == to <= |text| && text[from..to] == part
  }

  lemma Parts(text: string, from: nat, a: string, b: string, to: nat)
    requires At(text, from, a + b, to)
    ensures At(text, from, a, from + |a|) && At(text, from + |a|, b, to)
  {
    assert text[from..from + |a|] == text[from..to][..|a|];
    assert text[from + |a|..to] == text[from..to][|a|..];
  }

  predicate Idle(s: Client) {
    s.line == "" && s.pending == ""
  }

  /** Characters of an unfinished line change nothing but the line; cuts can only forget. */
  lemma {:induction false} ReadingPlain(text: string, cuts: set<nat>, from: nat, to: nat, codec: Codec)
    requires from <= to <= |text| && forall i :: from <= i < to ==> text[i] != '\n'
    requires Reading(text, cuts, from, codec).line == ""
    ensures var s, s' := Reading(text, cuts, from, codec), Reading(text, cuts, to, codec);
            s'.line == text[from..to] && s'.calls == s.calls && (s'.pending == s.pending || s'.pending == "")
  {
    if from == to {
      assert text[from..to] == "";
    } else {
      ReadingPlain(text, cuts, from, to - 1, codec);
      ReadingCharacter(text, cuts, to - 1, codec);
      assert text[from..to] == text[from..to - 1] + [text[to - 1]];
    }
  }

  lemma ReadingWithinLine(text: string, cuts: set<nat>, from: nat, w: string, to: nat, codec: Codec)
    requires At(text, from, w, to) && '\n' !in w && Reading(text, cuts, from, codec).line == ""
    ensures var s, s' := Reading(text, cuts, from, codec), Reading(text, cuts, to, codec);
            s'.line == w && s'.calls == s.calls && (s'.pending == s.pending || s'.pending == "")
  {
    forall i | from <= i < to ensures text[i] != '\n' {
      assert text[i] == text[from..to][i - from];
    }
    ReadingPlain(text, cuts, from, to, codec);
  }

  lemma ReadingCharacter(text: string, cuts: set<nat>, k: nat, codec: Codec)
    requires k < |text| && text[k] != '\n'
    ensures var s := Reading(text, cuts, k, codec);
            Reading(text, cuts, k + 1, codec)
            == Client(s.line + [text[k]], if k in cuts then "" else s.pending, s.calls)
  {
  }

  lemma ReadingNewline(text: string, cuts: set<nat>, k: nat, codec: Codec)
    requires k < |text| && text[k] == '\n'
    ensures var s := Reading(text, cuts, k, codec);
            Reading(text, cuts, k + 1, codec) == EndLine(if k in cuts then Forget(s) else s, codec)
  {
  }

  /** A line that is neither a data line nor blank leaves an idle reader idle. */
  lemma ReadingHeaderLine(text: string, cuts: set<nat>, from: nat, w: string, to: nat, s: Client, codec: Codec)
    requires At(text, from, w + "\n", to) && '\n' !in w && !StartsWith(w, DATA)
    requires from <= |text| && s == Reading(text, cuts, from, codec) && Idle(s)
    ensures Reading(text, cuts, to, codec) == s
  {
    Parts(text, from, w, "\n", to);
    assert text[to - 1] == text[to - 1..to][0];
    ReadingWithinLine(text, cuts, from, w, to - 1, codec);
    ReadingNewline(text, cuts, to - 1, codec);
  }

  lemma EndDataLine(s: Client, json: string, codec: Codec)
    requires s.line == DATA + json
    ensures EndLine(s, codec) == Client("", json, s.calls)
  {
    assert s.line[..|DATA|] == DATA && s.line[6..] == json;
  }

  /** The data line and the blank line: delivered unless a chunk starts between their two newlines. */
  lemma ReadingDataLine(text: string, cuts: set<nat>, from: nat, json: string, to: nat, s: Client, codec: Codec)
    requires At(text, from, (DATA + json) + "\n\n", to) && '\n' !in json && json != ""
    requires from <= |text| && s == Reading(text, cuts, from, codec) && Idle(s)
    ensures Reading(text, cuts, to, codec)
         == Client("", "", s.calls + if to - 1 in cuts then [] else Deliver(json, codec))
  {
    var w, end := DATA + json, to - 2;
    Parts(text, from, w, "\n\n", to);
    assert text[end] == text[end..to][0] && text[end + 1] == text[end..to][1];
    ReadingWithinLine(text, cuts, from, w, end, codec);
    ReadingNewline(text, cuts, end, codec);
    var last := Reading(text, cuts, end, codec);
    EndDataLine(if end in cuts then Forget(last) else last, json, codec);
    ReadingNewline(text, cuts, end + 1, codec);
  }

  lemma FirstChar(s: string, prefix: string)
    ensures StartsWith(s, prefix) && prefix != "" ==> s != "" && s[0] == prefix[0]
  {
  }

  lemma HeaderLinesAreIgnored(e: Event, line: string)
    requires line in Header(e)
    ensures '\n' !in line && !StartsWith(line, DATA)
  {
    assert line[0] != DATA[0];
    FirstChar(line, DATA);
    if e.id.Some? {
      PrintedDigitsAreDigits(if e.id.value < 0 then -e.id.value else e.id.value);
    }
  }

  lemma RecordText(e: Event, codec: Codec)
    ensures Record(e, codec) == Unlines(Header(e)) + DATA + Json(e, codec) + "\n\n"
  {
    var h, data := Header(e), "data: " + Json(e, codec);
    var all := h + [data, ""];
    assert all[..|all| - 1] == h + [data];
    assert (h + [data])[..|h|] == h;
    assert Unlines(h + [data]) == Unlines(h) + data + "\n";
  }

  lemma {:induction false} ReadingHeader(text: string, cuts: set<nat>, from: nat, e: Event, lines: seq<string>,
                                         to: nat, s: Client, codec: Codec)
    requires At(text, from, Unlines(lines), to) && forall l :: l in lines ==> l in Header(e)
    requires from <= |text| && s == Reading(text, cuts, from, codec) && Idle(s)
    ensures Reading(text, cuts, to, codec) == s
  {
    if lines == [] {
    } else {
      var front, last := lines[..|lines| - 1], lines[|lines| - 1];
      assert Unlines(lines) == Unlines(front) + (last + "\n");
      assert last in lines;
      HeaderLinesAreIgnored(e, last);
      Parts(text, from, Unlines(front), last + "\n", to);
      var mid := from + |Unlines(front)|;
      ReadingHeader(text, cuts, from, e, front, mid, s, codec);
      ReadingHeaderLine(text, cuts, mid, last, to, s, codec);
    }
  }

  lemma JsonFacts(e: Event, codec: Codec)
    requires Carried(e, codec)
    ensures '\n' !in Json(e, codec) && Json(e, codec) != "" && Deliver(Json(e, codec), codec) == CallsFor(e)
  {
  }

  lemma ReadingRecord(text: string, cuts: set<nat>, from: nat, e: Event, to: nat, s: Client, codec: Codec)
    requires At(text, from, Record(e, codec), to) && Carried(e, codec)
    requires from <= |text| && s == Reading(text, cuts, from, codec) && Idle(s)
    ensures Reading(text, cuts, to, codec)
         == Client("", "", s.calls + if to - 1 in cuts then [] else CallsFor(e))
  {
    var head, tail := Unlines(Header(e)), (DATA + Json(e, codec)) + "\n\n";
    RecordText(e, codec);
    Parts(text, from, head, tail, to);
    var mid := from + |head|;
    ReadingHeader(text, cuts, from, e, Header(e), mid, s, codec);
    JsonFacts(e, codec);
    ReadingDataLine(text, cuts, mid, Json(e, codec), to, s, codec);
  }

  /** The callbacks an event deserves. */
  function CallsFor(e: Event): seq<Call> {
    var p := PayloadOf(e);
    [OnEvent(Some(p["type"]), p)] + if p["type"] == Str("done") then [OnDone] else []
  }

  /** How much of the text the first `k` events take. */
  function Sent(events: seq<Event>, k: nat, codec: Codec): nat
    requires k <= |events|
  {
    |Printed(events[..k], codec)|
  }

  /** A chunk starts between the two final newlines of event `k`. */
  predicate CutOff(events: seq<Event>, cuts: set<nat>, k: nat, codec: Codec)
    requires k < |events|
  {
    Sent(events, k + 1, codec) - 1 in cuts
  }

  function CutEvents(events: seq<Event>, cuts: set<nat>, codec: Codec): set<nat> {
    set k: nat | k < |events| && CutOff(events, cuts, k, codec)
  }

  // ── What arrives ──

  /** The first `k` lists in a row, without the lost ones. */
  function Kept(lists: seq<seq<Call>>, lost: set<nat>, k: nat): seq<Call>
    requires k <= |lists|
  {
    if k == 0 then [] else Kept(lists, lost, k - 1) + if k - 1 in lost then [] else lists[k - 1]
  }

  function CallLists(events: seq<Event>): seq<seq<Call>> {
    seq(|events|, i requires 0 <= i < |events| => CallsFor(events[i]))
  }

  /** The callbacks for the events, without the lost ones. */
  function Delivered(events: seq<Event>, lost: set<nat>): seq<Call> {
    Kept(CallLists(events), lost, |events|)
  }

  lemma {:induction false} PrintedPrefix(events: seq<Event>, k: nat, codec: Codec)
    requires k <= |events|
    ensures var n := |Printed(events[..k], codec)|;
            n <= |Printed(events, codec)| && Printed(events, codec)[..n] == Printed(events[..k], codec)
  {
    if k < |events| {
      var front := events[..|events| - 1];
      PrintedPrefix(front, k, codec);
      assert front[..k] == events[..k];
    } else {
      assert events[..k] == events;
    }
  }

  lemma PrefixAt(text: string, before: string, part: string, to: nat)
    requires to == |before| + |part| <= |text| && text[..to] == before + part
    ensures At(text, |before|, part, to)
  {
    assert text[|before|..to] == text[..to][|before|..];
  }

  lemma PrintedOneMore(events: seq<Event>, k: nat, codec: Codec)
    requires k < |events|
    ensures At(Printed(events, codec), Sent(events, k, codec), Record(events[k], codec), Sent(events, k + 1, codec))
  {
    var before, record := Printed(events[..k], codec), Record(events[k], codec);
    PrintedPrefix(events, k + 1, codec);
    assert events[..k + 1][..k] == events[..k];
    assert Printed(events[..k + 1], codec) == before + record;
    PrefixAt(Printed(events, codec), before, record, Sent(events, k + 1, codec));
  }

  /** After `k` events, the reader is idle and has made the calls of those that were not lost. */
  ghost predicate ReadUpTo(text: string, cuts: set<nat>, n: nat, lists: seq<seq<Call>>, lost: set<nat>, k: nat,
                           codec: Codec)
    requires k <= |lists|
  {
    n <= |text| && Reading(text, cuts, n, codec) == Client("", "", Kept(lists, lost, k))
  }

  lemma ReadOneMore(text: string, cuts: set<nat>, n: nat, to: nat, e: Event, lists: seq<seq<Call>>, lost: set<nat>,
                    k: nat, codec: Codec)
    requires k < |lists| && ReadUpTo(text, cuts, n, lists, lost, k, codec)
    requires At(text, n, Record(e, codec), to) && Carried(e, codec) && lists[k] == CallsFor(e)
    requires k in lost <==> to - 1 in cuts
    ensures ReadUpTo(text, cuts, to, lists, lost, k + 1, codec)
  {
    ReadingRecord(text, cuts, n, e, to, Reading(text, cuts, n, codec), codec);
  }

  /** Where event `k` stands, what it calls for, and when it is lost. */
  lemma EventFacts(events: seq<Event>, cuts: set<nat>, k: nat, codec: Codec)
    requires AllCarried(events, codec) && k < |events|
    ensures At(Printed(events, codec), Sent(events, k, codec), Record(events[k], codec), Sent(events, k + 1, codec))
    ensures Carried(events[k], codec) && CallLists(events)[k] == CallsFor(events[k])
    ensures k in CutEvents(events, cuts, codec) <==> Sent(events, k + 1, codec) - 1 in cuts
  {
    PrintedOneMore(events, k, codec);
    assert events[k] in events;
    assert k in CutEvents(events, cuts, codec) <==> CutOff(events, cuts, k, codec);
  }

  lemma ReadOneEvent(events: seq<Event>, text: string, cuts: set<nat>, lists: seq<seq<Call>>, lost: set<nat>, k: nat,
                     codec: Codec)
    requires AllCarried(events, codec) && k < |events| && text == Printed(events, codec)
    requires lists == CallLists(events) && lost == CutEvents(events, cuts, codec)
    requires ReadUpTo(text, cuts, Sent(events, k, codec), lists, lost, k, codec)
    ensures ReadUpTo(text, cuts, Sent(events, k + 1, codec), lists, lost, k + 1, codec)
  {
    EventFacts(events, cuts, k, codec);
    ReadOneMore(text, cuts, Sent(events, k, codec), Sent(events, k + 1, codec), events[k], lists, lost, k, codec);
  }

  lemma {:induction false} ReadingPrinted(events: seq<Event>, cuts: set<nat>, k: nat, codec: Codec)
    requires AllCarried(events, codec) && k <= |events|
    ensures ReadUpTo(Printed(events, codec), cuts, Sent(events, k, codec), CallLists(events),
                     CutEvents(events, cuts, codec), k, codec)
  {
    if k == 0 {
      assert events[..0] == [];
    } else {
      ReadingPrinted(events, cuts, k - 1, codec);
      ReadOneEvent(events, Printed(events, codec), cuts, CallLists(events), CutEvents(events, cuts, codec), k - 1,
                   codec);
    }
  }

  /**
   For any events and any chunking of their text, the reader delivers exactly the events whose
   two final newlines arrive in one chunk, in order, once each, and keeps nothing in its buffer.
   */
  lemma {:induction false} ReaderDelivers(events: seq<Event>, chunks: seq<string>, codec: Codec)
    requires AllCarried(events, codec) && Concat(chunks) == Printed(events, codec)
    ensures AfterChunks(chunks, codec).line == ""
    ensures AfterChunks(chunks, codec).calls == Delivered(events, CutEvents(events, Starts(chunks), codec))
  {
    ChunksAreCuts(chunks, codec);
    ReadingPrinted(events, Starts(chunks), |events|, codec);
    assert events[..|events|] == events;
  }

  lemma {:induction false} KeptAtMost(lists: seq<seq<Call>>, lost: set<nat>, k: nat)
    requires k <= |lists|
    ensures |Kept(lists, lost, k)| <= |Kept(lists, {}, k)|
  {
    if k == 0 {
    } else {
      KeptAtMost(lists, lost, k - 1);
    }
  }

  ghost predicate NoneOf(lost: set<nat>, k: nat) {
    forall j: nat :: j < k ==> j !in lost
  }

  /** No list is empty, so losing one shows. */
  lemma {:induction false} NothingLost(lists: seq<seq<Call>>, lost: set<nat>, k: nat)
    requires k <= |lists| && forall i :: 0 <= i < |lists| ==> lists[i] != []
    ensures Kept(lists, lost, k) == Kept(lists, {}, k) <==> NoneOf(lost, k)
  {
    if k == 0 {
    } else {
      KeptAtMost(lists, lost, k - 1);
      NothingLost(lists, lost, k - 1);
      AppendUnless(Kept(lists, lost, k - 1), Kept(lists, {}, k - 1), lists[k - 1], k - 1 in lost);
    }
  }

  lemma AppendUnless<T>(a: seq<T>, b: seq<T>, c: seq<T>, lost: bool)
    requires |a| <= |b| && c != []
    ensures a + (if lost then [] else c) == b + c <==> a == b && !lost
  {
    if !lost && a + c == b + c {
      assert a == (a + c)[..|a|] == (b + c)[..|b|] == b;
    }
  }

  /** The round trip is lossless exactly when no chunk starts between the final newlines of a record. */
  lemma {:induction false} RoundTripIsExact(events: seq<Event>, chunks: seq<string>, codec: Codec)
    requires AllCarried(events, codec) && Concat(chunks) == Printed(events, codec)
    ensures AfterChunks(chunks, codec).calls == Delivered(events, {})
       <==> forall k: nat :: k < |events| ==> !CutOff(events, Starts(chunks), k, codec)
  {
    var lost := CutEvents(events, Starts(chunks), codec);
    ReaderDelivers(events, chunks, codec);
    NothingLost(CallLists(events), lost, |events|);
    forall k: nat | k < |events| ensures k in lost <==> CutOff(events, Starts(chunks), k, codec) {}
  }

  lemma TwoChunks(a: string, b: string)
    ensures Concat([a, b]) == a + b && |a| in Starts([a, b])
  {
    assert [a, b][..1] == [a] && [a][..0] == [];
    assert Concat([a]) == "" + a == a;
  }

  /** Two chunks suffice to lose an event. */
  lemma CutLosesEvent(e: Event, codec: Codec, a: string, b: string)
    requires Carried(e, codec)
    requires a + b == Record(e, codec) && |b| == 1
    ensures a + b == Printed([e], codec) && AfterChunks([a, b], codec).calls == []
  {
    TwoChunks(a, b);
    assert [e][..0] == [] && [e][..1] == [e];
    assert Printed([e], codec) == "" + Record(e, codec) == a + b;
    ReaderDelivers([e], [a, b], codec);
    var lost := CutEvents([e], Starts([a, b]), codec);
    assert CutOff([e], Starts([a, b]), 0, codec);
    assert 0 in lost;
    assert Kept(CallLists([e]), lost, 1) == Kept(CallLists([e]), lost, 0);
  }
}
