/** The streams event by event: what each upstream event counts and shows, when a call is tried again, and what a frame says. */
module StreamLaws {
  import opened Wrappers
  import opened Chat
  import opened Sse

  // ----- messages -----

  /** A message of the same role is joined to the last one by a blank line; one of the other role starts a new message. */
  lemma {:induction false} MessageLaw(ms: seq<Message>, m: Message)
    requires ms != []
    ensures
      var list, more, last := Collapsed(Runs(ms)), Collapsed(Runs(ms + [m])), |Collapsed(Runs(ms))| - 1;
      && list != [] && list[last].role == ms[|ms| - 1].role
      && (ms[|ms| - 1].role == m.role ==> more == list[last := Message(m.role, list[last].content + "\n\n" + m.content)])
      && (ms[|ms| - 1].role != m.role ==> more == list + [m])
  {
    CollapseStep(ms, m);
    RunsAlternate(ms);
    var runs := Runs(ms);
    var run := runs[|runs| - 1];
    assert run[|run| - 1].role == run[0].role;
  }

  lemma {:induction false} FirstMessageLaw(m: Message)
    ensures Collapsed(Runs([])) == [] && Collapsed(Runs([m])) == [m]
  {
    CollapseStep([], m);
    assert [] + [m] == [m];
  }

  // ----- usage -----

  /** Which counter each event feeds. */
  lemma {:induction false} UsageLaw(u: Usage, before: seq<RawEvent>, e: RawEvent)
    ensures
      var prior, now := Count(u, before), Count(u, before + [e]);
      && (e.ToolStart? && e.name == "web_fetch" ==> now == prior.(webFetch := prior.webFetch + 1))
      && (e.ToolStart? && e.name == "web_search" ==> now == prior.(webSearch := prior.webSearch + 1))
      && (e.ToolStart? && e.name != "web_fetch" && e.name != "web_search" ==> now == prior)
      && (e.MessageDelta? && e.output.None? ==> now == prior)
      && (e.MessageDelta? && e.output.Some? ==> now == prior.(output := e.output.value))
      && (e.MessageStop? ==>
            now == Usage(
              if e.final.input.Some? then e.final.input.value else prior.input,
              if e.final.output.Some? then e.final.output.value else prior.output,
              if e.final.cacheCreation.Some? then e.final.cacheCreation.value else 0,
              if e.final.cacheRead.Some? then e.final.cacheRead.value else 0,
              prior.webFetch, prior.webSearch))
      && (e.OtherStart? || e.TextDelta? || e.JsonDelta? || e.OtherDelta? || e.BlockStop? || e.Ignored? ==> now == prior)
    ensures Count(u, []) == u
  {
    assert (before + [e])[..|before|] == before;
  }

  // ----- what the caller sees -----

  /** Which events show, and as what; a block's stop shows its call only if the block was a tool call. */
  lemma {:induction false} ShownLaw(u: Usage, events: seq<RawEvent>, p: nat)
    requires p < |events|
    ensures Emitted(u, events, p + 1) == Emitted(u, events, p) + EmittedAt(u, events, p) && Emitted(u, events, 0) == []
    ensures events[p].TextDelta? ==> EmittedAt(u, events, p) == [Text(events[p].text)]
    ensures events[p].MessageDelta? ==> EmittedAt(u, events, p) == [UsageReport(events[p].output)]
    ensures events[p].MessageStop? ==> EmittedAt(u, events, p) == [Stop(Count(u, events[..p + 1]))]
    ensures events[p].ToolStart? || events[p].OtherStart? || events[p].JsonDelta? || events[p].OtherDelta? || events[p].Ignored?
      ==> EmittedAt(u, events, p) == []
  {}

  /** A block whose start was no tool call, or that never started, shows nothing at its stop. */
  lemma {:induction false} PlainBlockShowsNothing(u: Usage, events: seq<RawEvent>, index: int, p: nat)
    requires p < |events| && events[p] == BlockStop(index)
    requires forall q :: 0 <= q < p && events[q].ToolStart? ==> events[q].index != index
    ensures EmittedAt(u, events, p) == []
  {
    NeverOpened(events[..p], index);
  }

  lemma {:induction false} NeverOpened(events: seq<RawEvent>, index: int)
    requires forall q :: 0 <= q < |events| && events[q].ToolStart? ==> events[q].index != index
    ensures OpenBlock(events, index).None?
  {
    if events != [] {
      NeverOpened(events[..|events| - 1], index);
    }
  }

  /** The stream ends with the first message stop; without one it is read to its end. */
  lemma {:induction false} LiveLaw(events: seq<RawEvent>, p: nat)
    ensures (forall q :: 0 <= q < |events| ==> !events[q].MessageStop?) ==> Live(events) == events
    ensures p < |events| && events[p].MessageStop? && (forall q :: 0 <= q < p ==> !events[q].MessageStop?) ==> Live(events) == events[..p + 1]
  {
    if forall q :: 0 <= q < |events| ==> !events[q].MessageStop? {
      LiveWhole(events);
    } else if p < |events| && events[p].MessageStop? && forall q :: 0 <= q < p ==> !events[q].MessageStop? {
      LiveEnds(events, p);
    }
  }

  /** Tried again only after a retryable failure before anything showed, and twice at most. */
  lemma {:induction false} AttemptLaw(attempts: nat -> Attempt, k: nat)
    ensures Settles(attempts, k) <==>
      && k <= 2
      && (forall j: nat :: j < k ==>
            Fails(attempts(j)) && attempts(j).failure.value.retryable
            && Emitted(Usage(0, 0, 0, 0, 0, 0), Live(attempts(j).events), |Live(attempts(j).events)|) == [])
      && (k < 2 ==>
            !Fails(attempts(k)) || !attempts(k).failure.value.retryable
            || Emitted(Usage(0, 0, 0, 0, 0, 0), Live(attempts(k).events), |Live(attempts(k).events)|) != [])
  {}

  /** An attempt fails when its stream threw before a message stop. */
  lemma {:induction false} FailureLaw(a: Attempt)
    ensures Fails(a) <==> a.failure.Some? && forall i :: 0 <= i < |a.events| ==> !a.events[i].MessageStop?
  {}

  // ----- server-sent events -----

  /** What the server puts on the wire for an event, and for a heartbeat. */
  lemma {:induction false} WireLaw(w: Write, ws: seq<Write>)
    ensures WireAll([]) == ""
    ensures w.Send? ==> WireAll([w] + ws) == "event: " + w.event.name + "\n" + "data: " + w.event.data + "\n\n" + WireAll(ws)
    ensures w.Keepalive? ==> WireAll([w] + ws) == ": keepalive " + w.stamp + "\n\n" + WireAll(ws)
  {
    assert ([w] + ws)[1..] == ws;
    if w.Send? {
      Regroup("event: " + w.event.name + "\n", "data: " + w.event.data, "\n\n", WireAll(ws));
    }
  }

  lemma {:induction false} Regroup(a: string, b: string, c: string, d: string)
    ensures (a + b) + (c + d) == a + b + c + d
  {}

  /** The lines of a frame: the last event field names it, data fields are put together, other lines are ignored. */
  lemma {:induction false} FrameLaw(first: string, rest: string, e: Event)
    requires '\n' !in first
    ensures ReadLines(e, Lines(first + "\n" + rest)) == ReadLines(ReadLine(e, first), Lines(rest))
    ensures ReadLines(e, Lines(first)) == ReadLine(e, first)
  {
    OneLine(first, rest);
    assert first + "\n" + rest == first + ("\n" + rest);
    assert ([first] + Lines(rest))[1..] == Lines(rest);
    assert [first][1..] == [];
  }

  lemma {:induction false} FieldLaw(e: Event, text: string)
    ensures ReadLine(e, "event: " + text) == Event(Trim(text), e.data)
    ensures ReadLine(e, "data: " + text) == Event(e.name, e.data + text)
    ensures ReadLine(e, ": " + text) == e && ReadLine(e, "") == e
  {
    assert ("event: " + text)[7..] == text && ("data: " + text)[6..] == text;
    assert ("data: " + text)[0] == 'd' && (": " + text)[0] == ':';
    assert "event: " <= "event: " + text && "data: " <= "data: " + text;
  }

  /** White space goes at both ends, and nothing else. */
  lemma {:induction false} TrimLaw(s: string)
    ensures Trim("") == ""
    ensures s != "" && s[0] !in {' ', '\t', '\r', '\n'} && s[|s| - 1] !in {' ', '\t', '\r', '\n'} ==> Trim(s) == s
    ensures Trim(" " + s) == Trim(s)
    ensures TrimEnd(s + " ") == TrimEnd(s)
  {
    assert (" " + s)[1..] == s;
    assert (s + " ")[..|s|] == s;
  }

  /** A frame without data, or whose data is not JSON, is dropped; otherwise it is the event its lines say, "message" by default. */
  lemma {:induction false} EventLaw(frame: string, isJson: string -> bool)
    ensures
      var e := ReadLines(Event("message", ""), Lines(frame));
      EventOf(frame, isJson) == if e.data == "" || !isJson(e.data) then None else Some(e)
  {}

  /** The closing events are "done" and "error". */
  lemma {:induction false} ClosingLaw(name: string, data: string)
    ensures Ends([Event(name, data)]) <==> name == "done" || name == "error"
    ensures !Ends([])
  {
    assert [Event(name, data)][0] == Event(name, data);
  }
}
