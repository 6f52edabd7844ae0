/** Message normalisation, block assembly and the retry loop of chat.ts. */
module Chat {
  import opened Wrappers

  // ----- message normalisation -----

  datatype Role = User | Assistant

  datatype Message = Message(role: Role, content: string)

  const BLANK_LINE := "\n\n"

  function JoinContents(ms: seq<Message>): string
    requires ms != []
  {
    if |ms| == 1 then ms[0].content else JoinContents(ms[..|ms| - 1]) + BLANK_LINE + ms[|ms| - 1].content
  }

  /** The maximal runs of consecutive messages with one role. */
  function Runs(ms: seq<Message>): (runs: seq<seq<Message>>)
    ensures forall i :: 0 <= i < |runs| ==> runs[i] != []
    ensures ms != [] ==> runs != [] && runs[|runs| - 1][|runs[|runs| - 1]| - 1] == ms[|ms| - 1]
  {
    if ms == [] then []
    else
      var n := |ms| - 1;
      var earlier := Runs(ms[..n]);
      if n > 0 && ms[n - 1].role == ms[n].role then earlier[|earlier| - 1 := earlier[|earlier| - 1] + [ms[n]]]
      else earlier + [[ms[n]]]
  }

  function Flatten(runs: seq<seq<Message>>): seq<Message> {
    if runs == [] then [] else Flatten(runs[..|runs| - 1]) + runs[|runs| - 1]
  }

  /** One message per run, its contents joined by blank lines. */
  function Collapsed(runs: seq<seq<Message>>): seq<Message>
    requires forall i :: 0 <= i < |runs| ==> runs[i] != []
  {
    seq(|runs|, i requires 0 <= i < |runs| => Message(runs[i][0].role, JoinContents(runs[i])))
  }

  predicate Uniform(run: seq<Message>, role: Role) {
    forall j :: 0 <= j < |run| ==> run[j].role == role
  }

  predicate Alternate(runs: seq<seq<Message>>) {
    && (forall i :: 0 <= i < |runs| ==> runs[i] != [] && Uniform(runs[i], runs[i][0].role))
    && (forall i :: 0 < i < |runs| ==> runs[i - 1][0].role != runs[i][0].role)
  }

  /** The runs cut the messages up without losing or moving any. */
  lemma {:induction false} RunsPartition(ms: seq<Message>)
    ensures Flatten(Runs(ms)) == ms
  {
    if ms != [] {
      var n := |ms| - 1;
      RunsPartition(ms[..n]);
      var earlier, runs := Runs(ms[..n]), Runs(ms);
      assert ms == ms[..n] + [ms[n]];
      if n > 0 && ms[n - 1].role == ms[n].role {
        var init, last := earlier[..|earlier| - 1], earlier[|earlier| - 1];
        assert runs[..|runs| - 1] == init && runs[|runs| - 1] == last + [ms[n]];
        assert Flatten(init) + (last + [ms[n]]) == (Flatten(init) + last) + [ms[n]];
      } else {
        assert runs[..|runs| - 1] == earlier && runs[|runs| - 1] == [ms[n]];
      }
    }
  }

  /** Each run has one role, and neighbouring runs differ. */
  lemma {:induction false} RunsAlternate(ms: seq<Message>)
    ensures Alternate(Runs(ms))
  {
    if ms != [] {
      var n := |ms| - 1;
      RunsAlternate(ms[..n]);
      if n > 0 {
        var earlier := Runs(ms[..n]);
        var last := earlier[|earlier| - 1];
        assert last[|last| - 1] == ms[n - 1] && Uniform(last, last[0].role);
      }
    }
  }

  /** The normalised list alternates strictly. */
  lemma {:induction false} NormalisedAlternates(ms: seq<Message>)
    ensures forall i :: 0 < i < |Collapsed(Runs(ms))| ==> Collapsed(Runs(ms))[i - 1].role != Collapsed(Runs(ms))[i].role
  {
    RunsAlternate(ms);
  }

  /** One more message either extends the last message of the list or starts a new one. */
  function Absorb(list: seq<Message>, m: Message): seq<Message> {
    var last := |list| - 1;
    if last >= 0 && list[last].role == m.role
    then list[last := list[last].(content := list[last].content + BLANK_LINE + m.content)]
    else list + [m]
  }

  lemma {:induction false} JoinOneMore(run: seq<Message>, m: Message)
    requires run != []
    ensures JoinContents(run + [m]) == JoinContents(run) + BLANK_LINE + m.content
  {
    assert (run + [m])[..|run|] == run;
  }

  lemma {:induction false} CollapsedExtended(runs: seq<seq<Message>>, m: Message)
    requires runs != [] && forall i :: 0 <= i < |runs| ==> runs[i] != []
    requires runs[|runs| - 1][0].role == m.role
    ensures
      var last := |runs| - 1;
      Collapsed(runs[last := runs[last] + [m]]) == Absorb(Collapsed(runs), m)
  {
    JoinOneMore(runs[|runs| - 1], m);
  }

  lemma {:induction false} CollapsedStarted(runs: seq<seq<Message>>, m: Message)
    requires forall i :: 0 <= i < |runs| ==> runs[i] != []
    requires runs != [] ==> runs[|runs| - 1][0].role != m.role
    ensures Collapsed(runs + [[m]]) == Absorb(Collapsed(runs), m)
  {}

  lemma {:induction false} CollapseStep(ms: seq<Message>, m: Message)
    ensures Collapsed(Runs(ms + [m])) == Absorb(Collapsed(Runs(ms)), m)
  {
    var runs := Runs(ms);
    assert (ms + [m])[..|ms|] == ms;
    if ms != [] {
      RunsAlternate(ms);
      var last := runs[|runs| - 1];
      assert last[|last| - 1].role == last[0].role;
      assert (ms + [m])[|ms| - 1] == ms[|ms| - 1];
      if ms[|ms| - 1].role == m.role {
        CollapsedExtended(runs, m);
      } else {
        CollapsedStarted(runs, m);
      }
    } else {
      CollapsedStarted(runs, m);
    }
  }

  method NormalizeMessages(raw: seq<Message>) returns (normalized: seq<Message>)
    ensures normalized == Collapsed(Runs(raw))
  {
    normalized := [];
    for i := 0 to |raw|
      invariant normalized == Collapsed(Runs(raw[..i]))
    {
      CollapseStep(raw[..i], raw[i]);
      assert raw[..i + 1] == raw[..i] + [raw[i]];
      normalized := AppendOrJoin(normalized, raw[i]);
    }
    assert raw[..|raw|] == raw;
  }

  /** The loop body: the last message is changed in place, or the new one is pushed. */
  method AppendOrJoin(list: seq<Message>, m: Message) returns (normalized: seq<Message>)
    ensures normalized == Absorb(list, m)
  {
    normalized := list;
    var last := |normalized| - 1;
    if last >= 0 && normalized[last].role == m.role {
      normalized := normalized[last := normalized[last].(content := normalized[last].content + BLANK_LINE + m.content)];
    } else {
      normalized := normalized + [m];
    }
  }

  // ----- one streamed attempt -----

  datatype Usage = Usage(input: nat, output: nat, cacheCreation: nat, cacheRead: nat, webFetch: nat, webSearch: nat)

  const EMPTY_USAGE := Usage(0, 0, 0, 0, 0, 0)

  /** The usage block of the finished message. */
  datatype FinalUsage = FinalUsage(input: Option<nat>, output: Option<nat>, cacheCreation: Option<nat>, cacheRead: Option<nat>)

  datatype RawEvent =
    | ToolStart(index: int, id: string, name: string)
    | OtherStart(index: int)
    | TextDelta(index: int, text: string)
    | JsonDelta(index: int, partial: string)
    | OtherDelta(index: int)
    | BlockStop(index: int)
    | MessageDelta(output: Option<nat>)
    | MessageStop(final: FinalUsage)
    | Ignored

  datatype Assembling = Assembling(id: string, name: string, inputJson: string)

  /** What the caller sees; a tool call carries the JSON text its input is parsed from. */
  datatype ChatEvent =
    | Text(delta: string)
    | ToolUse(id: string, name: string, inputJson: string)
    | UsageReport(output: Option<nat>)
    | Stop(usage: Usage)

  function Or(v: Option<nat>, fallback: nat): nat {
    if v.Some? then v.value else fallback
  }

  function CountEvent(u: Usage, e: RawEvent): Usage {
    match e
    case ToolStart(_, _, name) =>
      if name == "web_fetch" then u.(webFetch := u.webFetch + 1)
      else if name == "web_search" then u.(webSearch := u.webSearch + 1)
      else u
    case MessageDelta(output) => u.(output := Or(output, u.output))
    case MessageStop(f) =>
      u.(input := Or(f.input, u.input), output := Or(f.output, u.output),
         cacheCreation := Or(f.cacheCreation, 0), cacheRead := Or(f.cacheRead, 0))
    case _ => u
  }

  function Count(u: Usage, events: seq<RawEvent>): Usage {
    if events == [] then u else CountEvent(Count(u, events[..|events| - 1]), events[|events| - 1])
  }

  /**
   The tool block open at `index` after these events. Only events of that index matter: this definition never looks
   at another block.
   */
  function OpenBlock(events: seq<RawEvent>, index: int): Option<Assembling> {
    if events == [] then None
    else
      var before := OpenBlock(events[..|events| - 1], index);
      match events[|events| - 1]
      case ToolStart(i, id, name) => if i == index then Some(Assembling(id, name, "")) else before
      case JsonDelta(i, partial) =>
        if i == index && before.Some? then Some(before.value.(inputJson := before.value.inputJson + partial)) else before
      case BlockStop(i) => if i == index then None else before
      case _ => before
  }

  /** What event `p` makes the caller see. */
  function EmittedAt(u: Usage, events: seq<RawEvent>, p: nat): seq<ChatEvent>
    requires p < |events|
  {
    match events[p]
    case TextDelta(_, text) => [Text(text)]
    case BlockStop(i) =>
      var open := OpenBlock(events[..p], i);
      if open.Some? then [ToolUse(open.value.id, open.value.name, open.value.inputJson)] else []
    case MessageDelta(output) => [UsageReport(output)]
    case MessageStop(_) => [Stop(Count(u, events[..p + 1]))]
    case _ => []
  }

  function Emitted(u: Usage, events: seq<RawEvent>, n: nat): seq<ChatEvent>
    requires n <= |events|
  {
    if n == 0 then [] else Emitted(u, events, n - 1) + EmittedAt(u, events, n - 1)
  }

  /** The events up to and including the message stop, after which nothing is read. */
  function Live(events: seq<RawEvent>): (live: seq<RawEvent>)
    ensures |live| <= |events| && live == events[..|live|]
    ensures forall i :: 0 <= i < |live| - 1 ==> !live[i].MessageStop?
    ensures |live| < |events| ==> live != [] && live[|live| - 1].MessageStop?
  {
    if events == [] then []
    else if events[0].MessageStop? then [events[0]]
    else
      var rest := Live(events[1..]);
      assert [events[0]] + rest == events[..|rest| + 1];
      [events[0]] + rest
  }

  datatype Failure = Failure(retryable: bool)

  /** One upstream stream: its events, then possibly a failure (never reached after a message stop). */
  datatype Attempt = Attempt(events: seq<RawEvent>, failure: Option<Failure>)

  predicate Stopped(a: Attempt) {
    exists i :: 0 <= i < |a.events| && a.events[i].MessageStop?
  }

  predicate Fails(a: Attempt) {
    a.failure.Some? && !Stopped(a)
  }

  function Seen(a: Attempt): seq<ChatEvent> {
    var live := Live(a.events);
    Emitted(EMPTY_USAGE, live, |live|)
  }

  // ----- demultiplexing -----

  function Concerns(e: RawEvent, index: int): bool {
    match e
    case ToolStart(i, _, _) => i == index
    case OtherStart(i) => i == index
    case TextDelta(i, _) => i == index
    case JsonDelta(i, _) => i == index
    case OtherDelta(i) => i == index
    case BlockStop(i) => i == index
    case _ => false
  }

  /** The events of one block, in order. */
  function Only(events: seq<RawEvent>, index: int): seq<RawEvent> {
    if events == [] then []
    else
      var last := events[|events| - 1];
      Only(events[..|events| - 1], index) + (if Concerns(last, index) then [last] else [])
  }

  /** The tool calls that block `index` yields. */
  function ToolCalls(events: seq<RawEvent>, index: int): seq<ChatEvent> {
    if events == [] then []
    else
      var n := |events| - 1;
      ToolCalls(events[..n], index) + (if events[n] == BlockStop(index) then EmittedAt(EMPTY_USAGE, events, n) else [])
  }

  lemma {:induction false} OpenBlockIsLocal(events: seq<RawEvent>, index: int)
    ensures OpenBlock(Only(events, index), index) == OpenBlock(events, index)
  {
    if events != [] {
      var n := |events| - 1;
      OpenBlockIsLocal(events[..n], index);
      OnlyStep(events, index);
    }
  }

  lemma {:induction false} OnlyStep(events: seq<RawEvent>, index: int)
    requires events != []
    ensures
      var n, own := |events| - 1, Only(events, index);
      if Concerns(events[n], index) then own != [] && own[..|own| - 1] == Only(events[..n], index) && own[|own| - 1] == events[n]
      else own == Only(events[..n], index)
  {}

  /** However blocks interleave, what a block yields is what its own events alone would yield. */
  lemma {:induction false} InterleavingNeverMatters(events: seq<RawEvent>, index: int)
    ensures ToolCalls(Only(events, index), index) == ToolCalls(events, index)
  {
    if events != [] {
      var n := |events| - 1;
      InterleavingNeverMatters(events[..n], index);
      OpenBlockIsLocal(events[..n], index);
      OnlyStep(events, index);
      assert ToolCalls(events[..n], index) + [] == ToolCalls(events[..n], index);
    }
  }

  function JsonDeltas(index: int, parts: seq<string>): seq<RawEvent> {
    seq(|parts|, i requires 0 <= i < |parts| => JsonDelta(index, parts[i]))
  }

  function ConcatAll(parts: seq<string>): string {
    if parts == [] then "" else ConcatAll(parts[..|parts| - 1]) + parts[|parts| - 1]
  }

  lemma {:induction false} BlockSoFar(index: int, id: string, name: string, parts: seq<string>)
    ensures OpenBlock([ToolStart(index, id, name)] + JsonDeltas(index, parts), index) == Some(Assembling(id, name, ConcatAll(parts)))
    ensures ToolCalls([ToolStart(index, id, name)] + JsonDeltas(index, parts), index) == []
  {
    var events := [ToolStart(index, id, name)] + JsonDeltas(index, parts);
    if parts == [] {
      assert events == [ToolStart(index, id, name)] && events[..0] == [];
    } else {
      var n := |parts| - 1;
      BlockSoFar(index, id, name, parts[..n]);
      assert events[..|events| - 1] == [ToolStart(index, id, name)] + JsonDeltas(index, parts[..n]);
    }
  }

  /** `p` is the one place where block `index` stops. */
  ghost predicate StopsAt(events: seq<RawEvent>, index: int, p: nat) {
    p < |events| && forall q :: 0 <= q < |events| ==> (events[q] == BlockStop(index) <==> q == p)
  }

  lemma {:induction false} OwnEvent(events: seq<RawEvent>, index: int, q: nat)
    requires q < |events| && Concerns(events[q], index)
    ensures events[q] in Only(events, index)
  {
    var n := |events| - 1;
    OnlyStep(events, index);
    if q < n {
      OwnEvent(events[..n], index, q);
      var own, earlier := Only(events, index), Only(events[..n], index);
      var i :| 0 <= i < |earlier| && earlier[i] == events[q];
      assert own[i] == events[q];
    }
  }

  /** The place of the block's stop, and what came before it. */
  lemma {:induction false} StopPlace(events: seq<RawEvent>, index: int, before: seq<RawEvent>) returns (p: nat)
    requires Only(events, index) == before + [BlockStop(index)] && BlockStop(index) !in before
    ensures StopsAt(events, index, p) && Only(events[..p], index) == before
  {
    var n := |events| - 1;
    OnlyStep(events, index);
    if Concerns(events[n], index) {
      p := n;
      assert Only(events[..n], index) == before;
      forall q | 0 <= q < n
        ensures events[q] != BlockStop(index)
      {
        if events[q] == BlockStop(index) {
          OwnEvent(events[..n], index, q);
        }
      }
    } else {
      p := StopPlace(events[..n], index, before);
      assert events[..n][..p] == events[..p];
      assert forall q :: 0 <= q < n ==> events[..n][q] == events[q];
    }
  }

  /** What the caller has seen once the stop is read: everything before it, then this block's call. */
  ghost predicate CallAt(u: Usage, events: seq<RawEvent>, p: nat, call: ChatEvent) {
    && p < |events| && EmittedAt(u, events, p) == [call]
    && Emitted(u, events, p + 1) == Emitted(u, events, p) + [call]
  }

  /**
   A well-formed tool block, interleaved with anything, yields exactly one call, at its stop, whose input text is its
   own deltas in order; the caller sees that call there.
   */
  lemma {:induction false} WellFormedBlockYieldsOneCall(u: Usage, events: seq<RawEvent>, index: int, id: string, name: string, parts: seq<string>)
    requires Only(events, index) == [ToolStart(index, id, name)] + JsonDeltas(index, parts) + [BlockStop(index)]
    ensures ToolCalls(events, index) == [ToolUse(id, name, ConcatAll(parts))]
    ensures exists p :: StopsAt(events, index, p) && CallAt(u, events, p, ToolUse(id, name, ConcatAll(parts)))
  {
    var before := [ToolStart(index, id, name)] + JsonDeltas(index, parts);
    var own := Only(events, index);
    InterleavingNeverMatters(events, index);
    BlockSoFar(index, id, name, parts);
    assert own[..|own| - 1] == before;
    CallAtStop(u, events, index, id, name, parts);
  }

  lemma {:induction false} CallAtStop(u: Usage, events: seq<RawEvent>, index: int, id: string, name: string, parts: seq<string>)
    requires Only(events, index) == [ToolStart(index, id, name)] + JsonDeltas(index, parts) + [BlockStop(index)]
    ensures exists p :: StopsAt(events, index, p) && CallAt(u, events, p, ToolUse(id, name, ConcatAll(parts)))
  {
    var before := [ToolStart(index, id, name)] + JsonDeltas(index, parts);
    var p := StopPlace(events, index, before);
    OpenBlockIsLocal(events[..p], index);
    BlockSoFar(index, id, name, parts);
    assert CallAt(u, events, p, ToolUse(id, name, ConcatAll(parts)));
  }

  function TextDeltas(events: seq<RawEvent>): seq<ChatEvent> {
    if events == [] then []
    else
      var last := events[|events| - 1];
      TextDeltas(events[..|events| - 1]) + (if last.TextDelta? then [Text(last.text)] else [])
  }

  function Texts(out: seq<ChatEvent>): seq<ChatEvent> {
    if out == [] then []
    else
      var last := out[|out| - 1];
      Texts(out[..|out| - 1]) + (if last.Text? then [last] else [])
  }

  /** Text reaches the caller delta by delta, in order, with nothing added or lost. */
  lemma {:induction false} TextKeepsOrder(u: Usage, events: seq<RawEvent>, n: nat)
    requires n <= |events|
    ensures Texts(Emitted(u, events, n)) == TextDeltas(events[..n])
  {
    if n > 0 {
      TextKeepsOrder(u, events, n - 1);
      var at := EmittedAt(u, events, n - 1);
      assert events[..n][..n - 1] == events[..n - 1];
      assert Emitted(u, events, n - 1) + [] == Emitted(u, events, n - 1);
      if at != [] {
        assert |at| == 1;
        assert (Emitted(u, events, n - 1) + at)[..|Emitted(u, events, n - 1)|] == Emitted(u, events, n - 1);
      }
    }
  }

  // ----- the assembling table -----

  /** The table of tool blocks under assembly, after one more event. */
  function Track(m: map<int, Assembling>, e: RawEvent): map<int, Assembling> {
    match e
    case ToolStart(i, id, name) => m[i := Assembling(id, name, "")]
    case JsonDelta(i, partial) => if i in m then m[i := m[i].(inputJson := m[i].inputJson + partial)] else m
    case BlockStop(i) => m - {i}
    case _ => m
  }

  /** What an event emits, read off the table; `u` is the usage after the event. */
  function Emission(u: Usage, m: map<int, Assembling>, e: RawEvent): seq<ChatEvent> {
    match e
    case TextDelta(_, text) => [Text(text)]
    case BlockStop(i) => if i in m then [ToolUse(m[i].id, m[i].name, m[i].inputJson)] else []
    case MessageDelta(output) => [UsageReport(output)]
    case MessageStop(_) => [Stop(u)]
    case _ => []
  }

  /** The table holds exactly the open blocks. */
  ghost predicate Tracks(m: map<int, Assembling>, events: seq<RawEvent>) {
    forall i :: (i in m <==> OpenBlock(events, i).Some?) && (i in m ==> Some(m[i]) == OpenBlock(events, i))
  }

  lemma {:induction false} TrackStep(m: map<int, Assembling>, events: seq<RawEvent>, p: nat)
    requires p < |events| && Tracks(m, events[..p])
    ensures Tracks(Track(m, events[p]), events[..p + 1])
  {
    assert events[..p + 1][..p] == events[..p];
  }

  lemma {:induction false} EmissionAt(u: Usage, m: map<int, Assembling>, events: seq<RawEvent>, p: nat)
    requires p < |events| && Tracks(m, events[..p])
    ensures Emission(CountEvent(Count(u, events[..p]), events[p]), m, events[p]) == EmittedAt(u, events, p)
  {
    assert events[..p + 1][..p] == events[..p];
  }

  predicate NoStop(events: seq<RawEvent>, p: nat)
    requires p <= |events|
  {
    forall i :: 0 <= i < p ==> !events[i].MessageStop?
  }

  /** Counters, output and table are up to date after `p` events. */
  ghost predicate Progress(u0: Usage, before: seq<ChatEvent>, live: seq<RawEvent>, p: nat, u: Usage, out: seq<ChatEvent>, m: map<int, Assembling>)
    requires p <= |live|
  {
    u == Count(u0, live[..p]) && out == before + Emitted(u0, live, p) && Tracks(m, live[..p])
  }

  lemma {:induction false} StreamStep(u0: Usage, before: seq<ChatEvent>, live: seq<RawEvent>, p: nat, u: Usage, out: seq<ChatEvent>, m: map<int, Assembling>)
    requires p < |live| && Progress(u0, before, live, p, u, out, m)
    ensures
      var u' := CountEvent(u, live[p]);
      Progress(u0, before, live, p + 1, u', out + Emission(u', m, live[p]), Track(m, live[p]))
  {
    assert live[..p + 1][..p] == live[..p] && live[..p + 1][p] == live[p];
    EmissionAt(u0, m, live, p);
    TrackStep(m, live, p);
    Associative(before, Emitted(u0, live, p), EmittedAt(u0, live, p));
  }

  lemma {:induction false} ProgressWhole(u0: Usage, before: seq<ChatEvent>, live: seq<RawEvent>, u: Usage, out: seq<ChatEvent>, m: map<int, Assembling>)
    requires Progress(u0, before, live, |live|, u, out, m)
    ensures u == Count(u0, live) && out == before + Emitted(u0, live, |live|)
  {
    assert live[..|live|] == live;
  }

  lemma {:induction false} Associative(x: seq<ChatEvent>, y: seq<ChatEvent>, z: seq<ChatEvent>)
    ensures (x + y) + z == x + (y + z)
  {}

  // ----- the stream object -----

  const STREAM_MAX_ATTEMPTS := 3

  /** An attempt that failed in a retryable way before the caller saw anything of it. */
  predicate RetriesAfter(a: Attempt) {
    Fails(a) && a.failure.value.retryable && Seen(a) == []
  }

  /** The first `k` attempts all failed before anything was seen. */
  ghost predicate AllRetry(attempts: nat -> Attempt, k: nat) {
    forall j: nat :: j < k ==> RetriesAfter(attempts(j))
  }

  /** `k` is the attempt the caller sees: the first that yields something, ends well, fails for good, or is the last allowed. */
  ghost predicate Settles(attempts: nat -> Attempt, k: nat) {
    && k < STREAM_MAX_ATTEMPTS
    && AllRetry(attempts, k)
    && (k == STREAM_MAX_ATTEMPTS - 1 || !RetriesAfter(attempts(k)))
  }

  lemma {:induction false} NothingBefore(x: seq<ChatEvent>)
    ensures [] + x == x
  {}

  lemma {:induction false} SettlesOnce(attempts: nat -> Attempt, k: nat)
    requires Settles(attempts, k)
    ensures forall j: nat :: Settles(attempts, j) ==> j == k
  {}

  class ChatStream {
    var usage: Usage
    var yielded: seq<ChatEvent>

    constructor ()
      ensures usage == EMPTY_USAGE && yielded == []
    {
      usage, yielded := EMPTY_USAGE, [];
    }

    /** The switch over one upstream event. */
    method OnEvent(ev: RawEvent, before: map<int, Assembling>) returns (assembling: map<int, Assembling>)
      modifies this
      ensures assembling == Track(before, ev)
      ensures usage == CountEvent(old(usage), ev)
      ensures yielded == old(yielded) + Emission(usage, before, ev)
    {
      assembling := before;
      match ev {
        case ToolStart(i, id, name) =>
          assembling := assembling[i := Assembling(id, name, "")];
          if name == "web_fetch" {
            usage := usage.(webFetch := usage.webFetch + 1);
          } else if name == "web_search" {
            usage := usage.(webSearch := usage.webSearch + 1);
          }
        case TextDelta(_, text) => yielded := yielded + [Text(text)];
        case JsonDelta(i, partial) =>
          if i in assembling {
            assembling := assembling[i := assembling[i].(inputJson := assembling[i].inputJson + partial)];
          }
        case BlockStop(i) =>
          if i in assembling {
            var tu := assembling[i];
            assembling := assembling - {i};
            yielded := yielded + [ToolUse(tu.id, tu.name, tu.inputJson)];
          }
        case MessageDelta(output) =>
          usage := usage.(output := Or(output, usage.output));
          yielded := yielded + [UsageReport(output)];
        case MessageStop(f) =>
          usage := usage.(input := Or(f.input, usage.input), output := Or(f.output, usage.output),
                          cacheCreation := Or(f.cacheCreation, 0), cacheRead := Or(f.cacheRead, 0));
          yielded := yielded + [Stop(usage)];
        case _ =>
      }
    }

    /** One event of the pass. */
    method Advance(ev: RawEvent, m: map<int, Assembling>, ghost u0: Usage, ghost before: seq<ChatEvent>, ghost live: seq<RawEvent>, ghost p: nat)
      returns (assembling: map<int, Assembling>)
      requires p < |live| && live[p] == ev && Progress(u0, before, live, p, usage, yielded, m)
      modifies this
      ensures Progress(u0, before, live, p + 1, usage, yielded, assembling)
    {
      StreamStep(u0, before, live, p, usage, yielded, m);
      assembling := OnEvent(ev, m);
    }

    /** One pass over an upstream stream; `ok` is false when it threw. */
    method StreamOnce(a: Attempt) returns (ok: bool)
      modifies this
      ensures ok == !Fails(a)
      ensures usage == Count(old(usage), Live(a.events))
      ensures yielded == old(yielded) + Emitted(old(usage), Live(a.events), |Live(a.events)|)
    {
      var assembling: map<int, Assembling> := map[];
      ghost var live, before, u0 := Live(a.events), yielded, usage;
      for p := 0 to |a.events|
        invariant p <= |live| && NoStop(a.events, p)
        invariant Progress(u0, before, live, p, usage, yielded, assembling)
      {
        LiveContinues(a.events, p);
        assembling := Advance(a.events[p], assembling, u0, before, live, p);
        if a.events[p].MessageStop? {
          LiveEnds(a.events, p);
          ProgressWhole(u0, before, live, usage, yielded, assembling);
          return true;
        }
      }
      LiveWhole(a.events);
      ProgressWhole(u0, before, live, usage, yielded, assembling);
      return a.failure.None?;
    }

    /**
     The whole call: at most three attempts; the caller sees the settling attempt's events and nothing of any other,
     and usage is counted from that attempt only.
     */
    method StreamChat(attempts: nat -> Attempt) returns (ok: bool, ghost k: nat)
      requires usage == EMPTY_USAGE && yielded == []
      modifies this
      ensures Settles(attempts, k) && ok == !Fails(attempts(k))
      ensures forall j: nat :: Settles(attempts, j) ==> j == k
      ensures yielded == Seen(attempts(k))
      ensures usage == Count(EMPTY_USAGE, Live(attempts(k).events))
    {
      var attempt := 1;
      while true
        invariant 1 <= attempt <= STREAM_MAX_ATTEMPTS
        invariant usage == EMPTY_USAGE && yielded == []
        invariant AllRetry(attempts, attempt - 1)
        decreases STREAM_MAX_ATTEMPTS - attempt
      {
        var a := attempts(attempt - 1);
        ok := StreamOnce(a);
        k := attempt - 1;
        NothingBefore(Seen(a));
        if ok || yielded != [] || attempt >= STREAM_MAX_ATTEMPTS || !a.failure.value.retryable {
          SettlesOnce(attempts, k);
          return;
        }
        usage := EMPTY_USAGE;
        attempt := attempt + 1;
      }
    }
  }

  lemma {:induction false} LiveContinues(events: seq<RawEvent>, p: nat)
    requires p < |events| && NoStop(events, p)
    ensures p < |Live(events)| && Live(events)[p] == events[p]
  {
    if p > 0 {
      LiveContinues(events[1..], p - 1);
    }
  }

  lemma {:induction false} LiveWhole(events: seq<RawEvent>)
    requires NoStop(events, |events|)
    ensures Live(events) == events
  {
    assert events[..|events|] == events;
  }

  lemma {:induction false} LiveEnds(events: seq<RawEvent>, p: nat)
    requires p < |events| && events[p].MessageStop? && NoStop(events, p)
    ensures |Live(events)| == p + 1
  {
    if p > 0 {
      LiveEnds(events[1..], p - 1);
    }
  }
}
