/**
 The incremental server-sent-event reader of useChatStream.ts. What it accepts is a subset of the event stream format
 of section 9.2.6 of the WHATWG HTML standard.
 */
module Sse {
  import opened Wrappers

  /** `text.indexOf("\n\n")`: the first blank line. */
  function FindBreak(text: string): (r: Option<nat>)
    ensures r.Some? ==> r.value + 2 <= |text| && text[r.value] == '\n' && text[r.value + 1] == '\n'
    ensures r.Some? ==> forall i :: 0 <= i < r.value ==> !(text[i] == '\n' && text[i + 1] == '\n')
    ensures r.None? ==> forall i :: 0 <= i < |text| - 1 ==> !(text[i] == '\n' && text[i + 1] == '\n')
  {
    if |text| < 2 then None
    else if text[0] == '\n' && text[1] == '\n' then Some(0)
    else
      match FindBreak(text[1..])
      case None => None
      case Some(i) => Some(i + 1)
  }

  // ----- splitting a whole text -----

  function Frames(text: string): seq<string>
    decreases |text|
  {
    match FindBreak(text)
    case None => []
    case Some(i) => [text[..i]] + Frames(text[i + 2..])
  }

  function Residue(text: string): string
    decreases |text|
  {
    match FindBreak(text)
    case None => text
    case Some(i) => Residue(text[i + 2..])
  }

  function Concat(chunks: seq<string>): string {
    if chunks == [] then "" else chunks[0] + Concat(chunks[1..])
  }

  // ----- one frame -----

  datatype Event = Event(name: string, data: string)

  /** `chunk.split("\n")` */
  function Lines(s: string): (ls: seq<string>)
    ensures |ls| >= 1
  {
    if s == "" then [""]
    else
      var rest := Lines(s[1..]);
      if s[0] == '\n' then [""] + rest else [[s[0]] + rest[0]] + rest[1..]
  }

  predicate IsBlank(c: char) {
    c == ' ' || c == '\t' || c == '\r' || c == '\n'
  }

  function TrimStart(s: string): string {
    if s != "" && IsBlank(s[0]) then TrimStart(s[1..]) else s
  }

  function TrimEnd(s: string): string {
    if s != "" && IsBlank(s[|s| - 1]) then TrimEnd(s[..|s| - 1]) else s
  }

  function Trim(s: string): string {
    TrimEnd(TrimStart(s))
  }

  const EVENT_FIELD := "event: "
  const DATA_FIELD := "data: "

  function ReadLine(e: Event, line: string): Event {
    if EVENT_FIELD <= line then e.(name := Trim(line[|EVENT_FIELD|..]))
    else if DATA_FIELD <= line then e.(data := e.data + line[|DATA_FIELD|..])
    else e
  }

  function ReadLines(e: Event, lines: seq<string>): Event
    decreases |lines|
  {
    if lines == [] then e else ReadLines(ReadLine(e, lines[0]), lines[1..])
  }

  /** `isJson` says which data `JSON.parse` accepts; the event carries the text that was parsed. */
  function EventOf(frame: string, isJson: string -> bool): Option<Event> {
    var e := ReadLines(Event("message", ""), Lines(frame));
    if e.data == "" || !isJson(e.data) then None else Some(e)
  }

  method ParseSse(frame: string, isJson: string -> bool) returns (r: Option<Event>)
    ensures r == EventOf(frame, isJson)
  {
    var lines := Lines(frame);
    var event, data := "message", "";
    assert lines[0..] == lines;
    for i := 0 to |lines|
      invariant ReadLines(Event("message", ""), lines) == ReadLines(Event(event, data), lines[i..])
    {
      var line := lines[i];
      assert lines[i..][0] == line && lines[i..][1..] == lines[i + 1..];
      if EVENT_FIELD <= line {
        event := Trim(line[|EVENT_FIELD|..]);
      } else if DATA_FIELD <= line {
        data := data + line[|DATA_FIELD|..];
      }
    }
    assert lines[|lines|..] == [];
    if data == "" || !isJson(data) {
      return None;
    }
    return Some(Event(event, data));
  }

  function OneEvent(frame: string, isJson: string -> bool): seq<Event> {
    match EventOf(frame, isJson) case None => [] case Some(e) => [e]
  }

  function EventsOf(frames: seq<string>, isJson: string -> bool): seq<Event> {
    if frames == [] then [] else OneEvent(frames[0], isJson) + EventsOf(frames[1..], isJson)
  }

  predicate Ends(es: seq<Event>) {
    exists i :: 0 <= i < |es| && (es[i].name == "done" || es[i].name == "error")
  }

  // ----- the reader -----

  class Reader {
    const isJson: string -> bool
    var buffer: string
    var sawDoneEvent: bool
    var delivered: seq<Event>

    constructor (isJson: string -> bool)
      ensures this.isJson == isJson && buffer == "" && !sawDoneEvent && delivered == []
    {
      this.isJson := isJson;
      buffer, sawDoneEvent, delivered := "", false, [];
    }

    /** One frame: what it parses to is delivered, and a closing event is remembered. */
    method Deliver(frame: string)
      modifies this`sawDoneEvent, this`delivered
      ensures delivered == old(delivered) + OneEvent(frame, isJson)
      ensures sawDoneEvent == (old(sawDoneEvent) || Ends(OneEvent(frame, isJson)))
    {
      var event := ParseSse(frame, isJson);
      if event.Some? {
        if event.value.name == "done" || event.value.name == "error" {
          assert Ends([event.value]) by {
            assert [event.value][0] == event.value;
          }
          sawDoneEvent := true;
        }
        delivered := delivered + [event.value];
      }
    }

    /** One chunk off the wire: every frame it completes is delivered, in order. */
    method Feed(chunk: string)
      modifies this
      ensures buffer == Residue(old(buffer) + chunk)
      ensures delivered == old(delivered) + EventsOf(Frames(old(buffer) + chunk), isJson)
      ensures sawDoneEvent == (old(sawDoneEvent) || Ends(EventsOf(Frames(old(buffer) + chunk), isJson)))
    {
      buffer := buffer + chunk;
      ghost var residue, events := Residue(buffer), EventsOf(Frames(buffer), isJson);
      ghost var target := delivered + events;
      var idx := FindBreak(buffer);
      while idx.Some?
        invariant idx == FindBreak(buffer)
        invariant Residue(buffer) == residue
        invariant delivered + EventsOf(Frames(buffer), isJson) == target
        invariant (sawDoneEvent || Ends(EventsOf(Frames(buffer), isJson))) == (old(sawDoneEvent) || Ends(events))
        decreases |buffer|
      {
        var frame := buffer[..idx.value];
        ghost var later := EventsOf(Frames(buffer[idx.value + 2..]), isJson);
        NextFrame(buffer, isJson);
        EndsAppend(OneEvent(frame, isJson), later);
        Associative(delivered, OneEvent(frame, isJson), later);
        buffer := buffer[idx.value + 2..];
        Deliver(frame);
        idx := FindBreak(buffer);
      }
      assert delivered + [] == delivered;
    }

    /** One chunk after the events `got` came out of those before it. */
    method FeedAfter(chunk: string, ghost before: seq<Event>, ghost closed: bool, ghost got: seq<Event>) returns (ghost all: seq<Event>)
      requires delivered == before + got && sawDoneEvent == (closed || Ends(got))
      modifies this
      ensures all == got + EventsOf(Frames(old(buffer) + chunk), isJson)
      ensures buffer == Residue(old(buffer) + chunk)
      ensures delivered == before + all && sawDoneEvent == (closed || Ends(all))
    {
      ghost var more := EventsOf(Frames(buffer + chunk), isJson);
      Associative(before, got, more);
      EndsAppend(got, more);
      Feed(chunk);
      all := got + more;
    }

    /** The read loop: whatever the chunks, what is delivered and held back is what the whole text gives. */
    method Consume(chunks: seq<string>)
      modifies this
      ensures buffer == if chunks == [] then old(buffer) else Residue(old(buffer) + Concat(chunks))
      ensures chunks != [] ==> delivered == old(delivered) + EventsOf(Frames(old(buffer) + Concat(chunks)), isJson)
      ensures chunks == [] ==> delivered == old(delivered)
      ensures sawDoneEvent == (old(sawDoneEvent) || (chunks != [] && Ends(EventsOf(Frames(old(buffer) + Concat(chunks)), isJson))))
    {
      if chunks != [] {
        NothingConsumed(buffer, chunks, isJson);
        ReadChunks(chunks, EventsOf(Frames(buffer + Concat(chunks)), isJson), Residue(buffer + Concat(chunks)));
      }
    }

    method ReadChunks(chunks: seq<string>, ghost all: seq<Event>, ghost residue: string)
      requires chunks != [] && Consumed(all, residue, [], buffer, chunks, isJson)
      modifies this
      ensures buffer == residue && delivered == old(delivered) + all
      ensures sawDoneEvent == (old(sawDoneEvent) || Ends(all))
    {
      ghost var before, closed, got: seq<Event> := delivered, sawDoneEvent, [];
      assert chunks[0..] == chunks && before + [] == before;
      for i := 0 to |chunks|
        invariant i > 0 ==> FindBreak(buffer).None?
        invariant Consumed(all, residue, got, buffer, chunks[i..], isJson)
        invariant delivered == before + got && sawDoneEvent == (closed || Ends(got))
      {
        ConsumeStep(all, residue, got, buffer, chunks[i..], isJson);
        assert chunks[i..][1..] == chunks[i + 1..];
        got := FeedAfter(chunks[i], before, closed, got);
      }
      ConsumedAll(all, residue, got, buffer, chunks[|chunks|..], isJson);
    }
  }

  /** The chunks read so far gave `got`; the buffer and the chunks to come give the rest. */
  ghost predicate Consumed(all: seq<Event>, residue: string, got: seq<Event>, buffer: string, left: seq<string>, isJson: string -> bool) {
    all == got + EventsOf(Frames(buffer + Concat(left)), isJson) && residue == Residue(buffer + Concat(left))
  }

  lemma {:induction false} NothingConsumed(buffer: string, chunks: seq<string>, isJson: string -> bool)
    ensures Consumed(EventsOf(Frames(buffer + Concat(chunks)), isJson), Residue(buffer + Concat(chunks)), [], buffer, chunks, isJson)
  {
    NothingBefore(EventsOf(Frames(buffer + Concat(chunks)), isJson));
  }

  lemma {:induction false} NothingBefore(x: seq<Event>)
    ensures [] + x == x
  {}

  lemma {:induction false} ConsumeStep(all: seq<Event>, residue: string, got: seq<Event>, buffer: string, left: seq<string>, isJson: string -> bool)
    requires left != [] && Consumed(all, residue, got, buffer, left, isJson)
    ensures FindBreak(Residue(buffer + left[0])).None?
    ensures Consumed(all, residue, got + EventsOf(Frames(buffer + left[0]), isJson), Residue(buffer + left[0]), left[1..], isJson)
  {
    var fed, later := buffer + left[0], Concat(left[1..]);
    assert buffer + Concat(left) == fed + later;
    ResidueHasNoBreak(fed);
    SplitResumes(fed, later);
    EventsAppend(Frames(fed), Frames(Residue(fed) + later), isJson);
    Associative(got, EventsOf(Frames(fed), isJson), EventsOf(Frames(Residue(fed) + later), isJson));
  }

  lemma {:induction false} ConsumedAll(all: seq<Event>, residue: string, got: seq<Event>, buffer: string, left: seq<string>, isJson: string -> bool)
    requires left == [] && FindBreak(buffer).None? && Consumed(all, residue, got, buffer, left, isJson)
    ensures all == got && residue == buffer
  {
    assert buffer + "" == buffer;
    assert got + [] == got;
  }

  lemma {:induction false} NextFrame(text: string, isJson: string -> bool)
    requires FindBreak(text).Some?
    ensures
      var i := FindBreak(text).value;
      && Residue(text) == Residue(text[i + 2..])
      && EventsOf(Frames(text), isJson) == OneEvent(text[..i], isJson) + EventsOf(Frames(text[i + 2..]), isJson)
  {
    var i := FindBreak(text).value;
    EventsFirst(text[..i], Frames(text[i + 2..]), isJson);
  }

  lemma {:induction false} EventsFirst(frame: string, rest: seq<string>, isJson: string -> bool)
    ensures EventsOf([frame] + rest, isJson) == OneEvent(frame, isJson) + EventsOf(rest, isJson)
  {
    assert ([frame] + rest)[1..] == rest;
  }

  lemma {:induction false} EventsAppend(a: seq<string>, b: seq<string>, isJson: string -> bool)
    ensures EventsOf(a + b, isJson) == EventsOf(a, isJson) + EventsOf(b, isJson)
  {
    if a == [] {
      assert a + b == b;
    } else {
      assert (a + b)[1..] == a[1..] + b;
      EventsAppend(a[1..], b, isJson);
      Associative(OneEvent(a[0], isJson), EventsOf(a[1..], isJson), EventsOf(b, isJson));
    }
  }

  lemma {:induction false} EndsAppend(a: seq<Event>, b: seq<Event>)
    ensures Ends(a + b) == (Ends(a) || Ends(b))
  {
    assert forall i :: 0 <= i < |a| ==> (a + b)[i] == a[i];
    assert forall i :: 0 <= i < |b| ==> (a + b)[|a| + i] == b[i];
  }

  lemma {:induction false} Associative(x: seq<Event>, y: seq<Event>, z: seq<Event>)
    ensures (x + y) + z == x + (y + z)
  {}

  // ----- chunking does not matter -----

  lemma {:induction false} BreakStays(a: string, b: string)
    requires FindBreak(a).Some?
    ensures FindBreak(a + b) == FindBreak(a)
  {
    var i := FindBreak(a).value;
    assert (a + b)[i] == a[i] && (a + b)[i + 1] == a[i + 1];
    assert forall k :: 0 <= k < |a| ==> (a + b)[k] == a[k];
  }

  /** A frame that is complete in `a` is the first frame of any text that starts with `a`. */
  lemma {:induction false} FirstFrameStays(a: string, b: string)
    requires FindBreak(a).Some?
    ensures
      var i := FindBreak(a).value;
      && Frames(a + b) == [a[..i]] + Frames(a[i + 2..] + b)
      && Residue(a + b) == Residue(a[i + 2..] + b)
  {
    var i := FindBreak(a).value;
    BreakStays(a, b);
    SliceAppend(a, b, i);
    FirstFrame(a + b, a[..i], a[i + 2..] + b);
  }

  lemma {:induction false} SliceAppend(a: string, b: string, i: nat)
    requires i + 2 <= |a|
    ensures (a + b)[..i] == a[..i] && (a + b)[i + 2..] == a[i + 2..] + b
  {}

  lemma {:induction false} FirstFrame(text: string, frame: string, rest: string)
    requires FindBreak(text) == Some(|frame|) && text[..|frame|] == frame && text[|frame| + 2..] == rest
    ensures Frames(text) == [frame] + Frames(rest) && Residue(text) == Residue(rest)
  {}

  /** Splitting can be resumed from the residue. */
  lemma {:induction false} SplitResumes(a: string, b: string)
    ensures Frames(a + b) == Frames(a) + Frames(Residue(a) + b)
    ensures Residue(a + b) == Residue(Residue(a) + b)
  {
    FramesResume(a, b);
    ResidueResumes(a, b);
  }

  lemma {:induction false} FramesResume(a: string, b: string)
    ensures Frames(a + b) == Frames(a) + Frames(Residue(a) + b)
    decreases |a|
  {
    if FindBreak(a).Some? {
      var i := FindBreak(a).value;
      FirstFrameStays(a, b);
      FramesResume(a[i + 2..], b);
      FramesAssociate([a[..i]], Frames(a[i + 2..]), Frames(Residue(a) + b));
    } else {
      assert [] + Frames(a + b) == Frames(a + b);
    }
  }

  lemma {:induction false} ResidueResumes(a: string, b: string)
    ensures Residue(a + b) == Residue(Residue(a) + b)
    decreases |a|
  {
    if FindBreak(a).Some? {
      FirstFrameStays(a, b);
      ResidueResumes(a[FindBreak(a).value + 2..], b);
    }
  }

  lemma {:induction false} FramesAssociate(x: seq<string>, y: seq<string>, z: seq<string>)
    ensures x + (y + z) == (x + y) + z
  {}

  /** All frames that come out of feeding the chunks one by one into a reader that holds `buffer`. */
  function FedFrames(buffer: string, chunks: seq<string>): seq<string>
    decreases |chunks|
  {
    if chunks == [] then []
    else Frames(buffer + chunks[0]) + FedFrames(Residue(buffer + chunks[0]), chunks[1..])
  }

  function FedResidue(buffer: string, chunks: seq<string>): string
    decreases |chunks|
  {
    if chunks == [] then buffer else FedResidue(Residue(buffer + chunks[0]), chunks[1..])
  }

  /**
   For every way to cut the text into chunks, the reader emits the same frames in the same order, and holds the same
   residue, as splitting the whole text at once.
   */
  lemma {:induction false} ChunkingNeverMatters(buffer: string, chunks: seq<string>)
    requires FindBreak(buffer).None?
    ensures FedFrames(buffer, chunks) == Frames(buffer + Concat(chunks))
    ensures FedResidue(buffer, chunks) == Residue(buffer + Concat(chunks))
    decreases |chunks|
  {
    if chunks == [] {
      assert buffer + "" == buffer;
    } else {
      var fed := buffer + chunks[0];
      assert buffer + Concat(chunks) == fed + Concat(chunks[1..]);
      SplitResumes(fed, Concat(chunks[1..]));
      ResidueHasNoBreak(fed);
      ChunkingNeverMatters(Residue(fed), chunks[1..]);
    }
  }

  lemma {:induction false} ResidueHasNoBreak(text: string)
    ensures FindBreak(Residue(text)).None?
    decreases |text|
  {
    if FindBreak(text).Some? {
      ResidueHasNoBreak(text[FindBreak(text).value + 2..]);
    }
  }

  // ----- end to end -----

  /** One write of the server: an event, or the heartbeat comment that keeps the connection open. */
  datatype Write = Send(event: Event) | Keepalive(stamp: string)

  function BodyOf(w: Write): string {
    match w
    case Send(e) => Body(e)
    case Keepalive(stamp) => ": keepalive " + stamp
  }

  function WireAll(ws: seq<Write>): string {
    if ws == [] then "" else BodyOf(ws[0]) + ("\n\n" + WireAll(ws[1..]))
  }

  /** The events among the writes. */
  function Sent(ws: seq<Write>): seq<Event> {
    if ws == [] then [] else (if ws[0].Send? then [ws[0].event] else []) + Sent(ws[1..])
  }

  predicate Writable(w: Write, isJson: string -> bool) {
    match w
    case Send(e) => Sendable(e, isJson)
    case Keepalive(stamp) => '\n' !in stamp
  }

  /** One-line names and non-empty one-line JSON data, as the server's serialiser produces. */
  predicate Sendable(e: Event, isJson: string -> bool) {
    '\n' !in e.name && Trim(e.name) == e.name && '\n' !in e.data && e.data != "" && isJson(e.data)
  }

  function Body(e: Event): string {
    "event: " + e.name + "\n" + ("data: " + e.data)
  }

  lemma {:induction false} OneLine(s: string, rest: string)
    requires '\n' !in s
    ensures Lines(s) == [s]
    ensures Lines(s + ("\n" + rest)) == [s] + Lines(rest)
  {
    var text := s + ("\n" + rest);
    if s == "" {
      assert text == "\n" + rest && text[1..] == rest;
    } else {
      assert text[1..] == s[1..] + ("\n" + rest);
      OneLine(s[1..], rest);
      assert [s[0]] + s[1..] == s;
      assert Lines(s[1..])[1..] == [];
    }
  }

  lemma {:induction false} TwoLines(e: Event, first: string, second: string)
    ensures ReadLines(e, [first] + [second]) == ReadLine(ReadLine(e, first), second)
  {
    var lines: seq<string> := [first] + [second];
    assert lines[0] == first && lines[1..][0] == second && lines[1..][1..] == [];
    assert ReadLines(e, lines) == ReadLines(ReadLine(e, first), lines[1..]);
    assert ReadLines(ReadLine(e, first), lines[1..]) == ReadLines(ReadLine(ReadLine(e, first), second), []);
  }

  lemma {:induction false} FieldsRead(e: Event)
    requires Trim(e.name) == e.name
    ensures ReadLine(ReadLine(Event("message", ""), "event: " + e.name), "data: " + e.data) == e
  {
    var first, second := "event: " + e.name, "data: " + e.data;
    assert EVENT_FIELD <= first && first[|EVENT_FIELD|..] == e.name;
    assert second[0] == 'd' && DATA_FIELD <= second && second[|DATA_FIELD|..] == e.data;
  }

  lemma {:induction false} BodyParses(e: Event, isJson: string -> bool)
    requires Sendable(e, isJson)
    ensures EventOf(Body(e), isJson) == Some(e)
  {
    var first, second := "event: " + e.name, "data: " + e.data;
    assert Body(e) == first + ("\n" + second);
    OneLine(first, second);
    OneLine(second, "");
    TwoLines(Event("message", ""), first, second);
    FieldsRead(e);
  }

  /** The lines of a body hold no blank line, and its last character is no line break. */
  predicate Unbroken(b: string) {
    && b != "" && b[|b| - 1] != '\n'
    && forall i :: 0 <= i < |b| - 1 ==> !(b[i] == '\n' && b[i + 1] == '\n')
  }

  lemma {:induction false} BodyUnbroken(e: Event)
    requires '\n' !in e.name && '\n' !in e.data
    ensures Unbroken(Body(e))
  {
    var b, n := Body(e), |"event: " + e.name|;
    assert forall i :: 0 <= i < n ==> b[i] == ("event: " + e.name)[i];
    assert forall i :: n < i < |b| ==> b[i] == ("data: " + e.data)[i - n - 1];
    forall i | 0 <= i < |b| && i != n
      ensures b[i] != '\n'
    {
      if i < n {
        assert ("event: " + e.name)[i] != '\n';
      } else {
        assert ("data: " + e.data)[i - n - 1] != '\n';
      }
    }
  }

  /** A heartbeat is a comment: it carries no field and parses to nothing. */
  lemma {:induction false} KeepaliveIsSilent(stamp: string, isJson: string -> bool)
    requires '\n' !in stamp
    ensures Unbroken(": keepalive " + stamp) && OneEvent(": keepalive " + stamp, isJson) == []
  {
    var b := ": keepalive " + stamp;
    assert forall i :: 0 <= i < |b| ==> b[i] == (if i < 12 then ": keepalive "[i] else stamp[i - 12]);
    forall i | 0 <= i < |b|
      ensures b[i] != '\n'
    {
      if i >= 12 {
        assert stamp[i - 12] in stamp;
      }
    }
    OneLine(b, "");
    assert b[0] == ':';
    assert ReadLines(Event("message", ""), [b]) == ReadLines(ReadLine(Event("message", ""), b), [b][1..]);
  }

  lemma {:induction false} BodyRead(w: Write, isJson: string -> bool)
    requires Writable(w, isJson)
    ensures Unbroken(BodyOf(w)) && OneEvent(BodyOf(w), isJson) == (if w.Send? then [w.event] else [])
  {
    match w
    case Send(e) =>
      BodyUnbroken(e);
      BodyParses(e, isJson);
    case Keepalive(stamp) =>
      KeepaliveIsSilent(stamp, isJson);
  }

  lemma {:induction false} FirstBreakAfter(b: string, rest: string)
    requires Unbroken(b)
    ensures FindBreak(b + ("\n\n" + rest)) == Some(|b|)
  {
    var text := b + ("\n\n" + rest);
    assert text[|b|] == '\n' && text[|b| + 1] == '\n';
    forall i | 0 <= i < |b|
      ensures !(text[i] == '\n' && text[i + 1] == '\n')
    {
      assert text[i] == b[i] && (i + 1 < |b| ==> text[i + 1] == b[i + 1]);
    }
  }

  lemma {:induction false} OneFrameOff(b: string, rest: string, isJson: string -> bool)
    requires Unbroken(b)
    ensures EventsOf(Frames(b + ("\n\n" + rest)), isJson) == OneEvent(b, isJson) + EventsOf(Frames(rest), isJson)
    ensures Residue(b + ("\n\n" + rest)) == Residue(rest)
  {
    FirstBreakAfter(b, rest);
    Slices(b, "\n\n", rest);
    FrameAt(b + ("\n\n" + rest), b, rest, isJson);
  }

  lemma {:induction false} Slices(a: string, b: string, c: string)
    ensures (a + (b + c))[..|a|] == a && (a + (b + c))[|a| + |b|..] == c
  {}

  lemma {:induction false} FrameAt(text: string, frame: string, rest: string, isJson: string -> bool)
    requires FindBreak(text) == Some(|frame|) && text[..|frame|] == frame && text[|frame| + 2..] == rest
    ensures EventsOf(Frames(text), isJson) == OneEvent(frame, isJson) + EventsOf(Frames(rest), isJson)
    ensures Residue(text) == Residue(rest)
  {
    NextFrame(text, isJson);
  }

  lemma {:induction false} WireSplits(ws: seq<Write>, isJson: string -> bool)
    requires forall i :: 0 <= i < |ws| ==> Writable(ws[i], isJson)
    ensures EventsOf(Frames(WireAll(ws)), isJson) == Sent(ws) && Residue(WireAll(ws)) == ""
  {
    if ws != [] {
      BodyRead(ws[0], isJson);
      OneFrameOff(BodyOf(ws[0]), WireAll(ws[1..]), isJson);
      WireSplits(ws[1..], isJson);
    }
  }

  /**
   However the wire text of any writes, heartbeats included, is cut into chunks, the client delivers exactly the events
   that were sent, in order, and holds nothing back.
   */
  lemma {:induction false} EventsSurviveTheWire(ws: seq<Write>, chunks: seq<string>, isJson: string -> bool)
    requires Concat(chunks) == WireAll(ws) && forall i :: 0 <= i < |ws| ==> Writable(ws[i], isJson)
    ensures EventsOf(FedFrames("", chunks), isJson) == Sent(ws) && FedResidue("", chunks) == ""
  {
    ChunkingNeverMatters("", chunks);
    assert "" + Concat(chunks) == Concat(chunks);
    WireSplits(ws, isJson);
  }
}
