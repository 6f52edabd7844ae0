/**
 The single-flight refresh of the browser client (api.ts, token-store.ts) against a server that rotates refresh
 tokens: one tab, any number of concurrent requests, any interleaving, every answer delivered.
 */
module Browser {
  import opened Wrappers

  type Token = nat
  type RequestId = nat
  type FlightId = nat

  /** api() and apiFetch() clear the store when the refresh fails; authedFetch() leaves it. */
  datatype Kind = Clearing | Keeping

  datatype Request =
    | Sent(kind: Kind)
    | Waiting(kind: Kind, flight: FlightId)
    | Resent
    | Finished

  /** What doRefresh learns: a new pair, a refusal, or that the server was not reached. */
  datatype Answer = Fresh(token: Token) | Denied | Lost

  /** One call of doRefresh that sent something. `again` is history: see State.kept. */
  datatype Flight = Flight(token: Token, again: bool, answer: Option<Answer>)

  /** One refresh the server handled. */
  datatype Presentation = Presentation(token: Token, accepted: bool)

  /**
   `memo` is inflightRefresh and `wire` holds every refresh call not yet settled. On the server a token is live until
   it is used (then it is rotated) or its session ends; `log` is the server's history of presented tokens.
   `kept` is the client's history: the stored token came back denied, nobody who waited for that answer cleared the
   store, and nothing has written it since.
   */
  datatype State = State(
    store: Option<Token>,
    kept: bool,
    memo: Option<FlightId>,
    wire: map<FlightId, Flight>,
    requests: map<RequestId, Request>,
    live: set<Token>,
    rotated: set<Token>,
    next: nat,
    log: seq<Presentation>)

  const INIT := State(None, false, None, map[], map[], {}, {}, 0, [])

  datatype Action =
    | SignIn
    | SignOut
    | SessionEnds(token: Token)
    | Start(id: RequestId, kind: Kind)
    | Answered(id: RequestId, unauthorized: bool)
    | Serve(flight: FlightId, allowed: bool)
    | Unreached(flight: FlightId)
    | Settle(flight: FlightId)

  /** refreshOnce for request `id`: join the memoised call, make one, or fail at once because nothing is stored. */
  function RefreshOnce(s: State, id: RequestId, kind: Kind): State {
    if s.memo.Some? then s.(requests := s.requests[id := Waiting(kind, s.memo.value)])
    else if s.store.None? then s.(requests := s.requests[id := Finished])
    else
      s.(memo := Some(s.next),
         wire := s.wire[s.next := Flight(s.store.value, s.kept, None)],
         requests := s.requests[id := Waiting(kind, s.next)],
         next := s.next + 1)
  }

  /** A first answer of 401 goes through the refresh; any other answer, and any answer to a retry, finishes the request. */
  function OnAnswer(s: State, id: RequestId, unauthorized: bool): State
    requires id in s.requests
  {
    var r := s.requests[id];
    if r.Sent? && unauthorized then RefreshOnce(s, id, r.kind)
    else if r.Sent? || r.Resent? then s.(requests := s.requests[id := Finished])
    else s
  }

  predicate Unanswered(s: State, f: FlightId) {
    f in s.wire && s.wire[f].answer.None?
  }

  /** The server handles a refresh: a live token of a session it still allows is rotated, anything else is denied. */
  function OnServe(s: State, f: FlightId, allowed: bool): State
    requires Unanswered(s, f)
  {
    var t := s.wire[f].token;
    if t in s.live && allowed then
      s.(live := s.live - {t} + {s.next}, rotated := s.rotated + {t}, next := s.next + 1,
         wire := s.wire[f := s.wire[f].(answer := Some(Fresh(s.next)))], log := s.log + [Presentation(t, true)])
    else
      s.(wire := s.wire[f := s.wire[f].(answer := Some(Denied))], log := s.log + [Presentation(t, false)])
  }

  predicate WaitsFor(s: State, id: RequestId, f: FlightId) {
    id in s.requests && s.requests[id].Waiting? && s.requests[id].flight == f
  }

  /** Somebody who waits for `f` clears the store when it fails. */
  predicate ClearsAfter(s: State, f: FlightId) {
    exists id :: id in s.requests && WaitsFor(s, id, f) && s.requests[id].kind == Clearing
  }

  /**
   The answer is delivered. The pair is stored, the memo cleared, and every waiter resumes, all before any other
   response is handled: the waiters' continuations run in the microtask checkpoint in which the refresh promise settles.
   */
  function OnSettle(s: State, f: FlightId): State
    requires f in s.wire && s.wire[f].answer.Some?
  {
    var a := s.wire[f].answer.value;
    var clears := !a.Fresh? && ClearsAfter(s, f);
    s.(store := if a.Fresh? then Some(a.token) else if clears then None else s.store,
       kept := !a.Fresh? && !clears && (s.kept || (a.Denied? && s.store == Some(s.wire[f].token))),
       memo := None,
       wire := s.wire - {f},
       requests := map id | id in s.requests ::
         if WaitsFor(s, id, f) then (if a.Fresh? then Resent else Finished) else s.requests[id])
  }

  /** An action that is not enabled changes nothing. */
  function Step(s: State, a: Action): State {
    match a
    case SignIn => s.(store := Some(s.next), kept := false, live := s.live + {s.next}, next := s.next + 1)
    case SignOut => s.(store := None, kept := false, live := if s.store.Some? then s.live - {s.store.value} else s.live)
    case SessionEnds(t) => s.(live := s.live - {t})
    case Start(id, kind) => if id in s.requests then s else s.(requests := s.requests[id := Sent(kind)])
    case Answered(id, unauthorized) => if id in s.requests then OnAnswer(s, id, unauthorized) else s
    case Serve(f, allowed) => if Unanswered(s, f) then OnServe(s, f, allowed) else s
    case Unreached(f) => if Unanswered(s, f) then s.(wire := s.wire[f := s.wire[f].(answer := Some(Lost))]) else s
    case Settle(f) => if f in s.wire && s.wire[f].answer.Some? then OnSettle(s, f) else s
  }

  function Run(s: State, actions: seq<Action>): State
    decreases |actions|
  {
    if actions == [] then s else Run(Step(s, actions[0]), actions[1..])
  }

  // ----- the invariant -----

  /** No two refresh calls overlap: the memo names the only one outstanding. */
  ghost predicate SingleFlight(s: State) {
    && (forall f :: f in s.wire ==> s.memo == Some(f))
    && (s.memo.Some? ==> s.memo.value in s.wire)
  }

  /** Whoever waits, waits for the outstanding call, and somebody waits for it. */
  ghost predicate WaitersHaveFlight(s: State) {
    && (forall id :: id in s.requests && s.requests[id].Waiting? ==> s.memo == Some(s.requests[id].flight))
    && (s.memo.Some? ==> exists id :: WaitsFor(s, id, s.memo.value))
  }

  ghost predicate Bounded(s: State) {
    && (s.store.Some? ==> s.store.value < s.next)
    && (forall t :: t in s.live ==> t < s.next)
    && (forall t :: t in s.rotated ==> t < s.next && t !in s.live)
    && (forall f :: f in s.wire ==> f < s.next && FlightBounded(s.wire[f], s.next))
    && (forall i :: 0 <= i < |s.log| ==> s.log[i].token < s.next)
  }

  predicate FlightBounded(f: Flight, next: nat) {
    && f.token < next
    && (f.answer.Some? && f.answer.value.Fresh? ==> f.answer.value.token < next && f.answer.value.token != f.token)
  }

  /** The token was handled by the server at least once. */
  ghost predicate Presented(log: seq<Presentation>, t: Token) {
    exists i :: 0 <= i < |log| && log[i].token == t
  }

  /** A presented token is in the store only if the client kept a denied one, or its answer is on its way back. */
  ghost predicate StoreFresh(s: State) {
    s.store.Some? && Presented(s.log, s.store.value) && !s.kept ==>
      exists f :: f in s.wire && s.wire[f].token == s.store.value && s.wire[f].answer.Some? && !s.wire[f].answer.value.Lost?
  }

  /** What the client kept was presented. */
  ghost predicate KeptIsDenied(s: State) {
    s.kept ==> s.store.Some? && Presented(s.log, s.store.value)
  }

  /** The stored token was rotated only if the new pair is on its way back. */
  ghost predicate StoreUnused(s: State) {
    s.store.Some? && s.store.value in s.rotated ==>
      exists f :: f in s.wire && s.wire[f].token == s.store.value && s.wire[f].answer.Some? && s.wire[f].answer.value.Fresh?
  }

  /** A token on its way to the server was presented before exactly when the client had kept it; it was never rotated. */
  ghost predicate WireFresh(s: State) {
    forall f :: f in s.wire ==>
      && (s.wire[f].answer.None? ==> s.wire[f].token !in s.rotated && (s.wire[f].again <==> Presented(s.log, s.wire[f].token)))
      && (s.wire[f].answer.Some? && s.wire[f].answer.value.Denied? ==> s.wire[f].token !in s.rotated && Presented(s.log, s.wire[f].token))
      && (s.wire[f].answer.Some? && s.wire[f].answer.value.Lost? ==> s.wire[f].token !in s.rotated)
      && (s.wire[f].answer.Some? && s.wire[f].answer.value.Fresh? ==>
            s.wire[f].answer.value.token !in s.rotated && !Presented(s.log, s.wire[f].answer.value.token))
  }

  /** The server's history: a token it accepted is rotated and is never presented again. */
  ghost predicate LogSound(s: State) {
    && (forall i :: 0 <= i < |s.log| && s.log[i].accepted ==> s.log[i].token in s.rotated)
    && (forall i, j :: 0 <= i < j < |s.log| && s.log[i].token == s.log[j].token ==> !s.log[i].accepted)
  }

  ghost predicate Inv(s: State) {
    && SingleFlight(s) && WaitersHaveFlight(s) && Bounded(s) && StoreFresh(s) && StoreUnused(s) && KeptIsDenied(s)
    && WireFresh(s) && LogSound(s)
  }

  lemma {:induction false} AnswerKeeps(s: State, id: RequestId, unauthorized: bool)
    requires Inv(s) && id in s.requests
    ensures Inv(OnAnswer(s, id, unauthorized))
  {
    var s' := OnAnswer(s, id, unauthorized);
    if s.memo.None? {
      assert s.wire == map[];
    }
    if s'.memo.Some? {
      if s.requests[id].Sent? && unauthorized {
        assert WaitsFor(s', id, s'.memo.value);
      } else {
        var w :| WaitsFor(s, w, s.memo.value);
        assert WaitsFor(s', w, s'.memo.value);
      }
    }
  }

  /** Presenting `t` once more makes no other token presented. */
  lemma {:induction false} PresentedOneMore(log: seq<Presentation>, p: Presentation, t: Token)
    ensures Presented(log + [p], t) <==> Presented(log, t) || t == p.token
  {
    var more := log + [p];
    assert more[|log|] == p;
    assert forall i :: 0 <= i < |log| ==> more[i] == log[i];
  }

  lemma {:induction false} ServeKeepsLog(s: State, f: FlightId, allowed: bool)
    requires Inv(s) && Unanswered(s, f)
    ensures LogSound(OnServe(s, f, allowed)) && Bounded(OnServe(s, f, allowed))
  {
    var s' := OnServe(s, f, allowed);
    assert forall i :: 0 <= i < |s.log| ==> s'.log[i] == s.log[i];
    assert forall i :: 0 <= i < |s.log| && s.log[i].token == s.wire[f].token ==> !s.log[i].accepted;
  }

  lemma {:induction false} ServeKeeps(s: State, f: FlightId, allowed: bool)
    requires Inv(s) && Unanswered(s, f)
    ensures Inv(OnServe(s, f, allowed))
  {
    ServeKeepsLog(s, f, allowed);
    var s', t := OnServe(s, f, allowed), s.wire[f].token;
    var p := Presentation(t, t in s.live && allowed);
    assert s'.log == s.log + [p];
    PresentedOneMore(s.log, p, t);
    PresentedOneMore(s.log, p, s.next);
    if s.store.Some? {
      PresentedOneMore(s.log, p, s.store.value);
    }
    assert s'.wire.Keys == s.wire.Keys;
    assert forall g :: g in s.wire ==> g == f;
    if s.store == Some(t) {
      assert s'.wire[f].token == t;
    }
    var w :| WaitsFor(s, w, s.memo.value);
    assert WaitsFor(s', w, s'.memo.value);
  }

  lemma {:induction false} UnreachedKeeps(s: State, f: FlightId)
    requires Inv(s) && Unanswered(s, f)
    ensures Inv(Step(s, Unreached(f)))
  {
    var s' := Step(s, Unreached(f));
    assert s'.wire.Keys == s.wire.Keys;
    var w :| WaitsFor(s, w, s.memo.value);
    assert WaitsFor(s', w, s'.memo.value);
  }

  lemma {:induction false} SettleKeeps(s: State, f: FlightId)
    requires Inv(s) && f in s.wire && s.wire[f].answer.Some?
    ensures Inv(OnSettle(s, f))
  {
    var s' := OnSettle(s, f);
    assert forall g :: g in s.wire ==> g == f;
    assert s'.wire == map[];
  }

  lemma {:induction false} SignInKeeps(s: State)
    requires Inv(s)
    ensures Inv(Step(s, SignIn))
  {
    var s' := Step(s, SignIn);
    assert s.next !in s.rotated && !Presented(s.log, s.next);
    if s.memo.Some? {
      var w :| WaitsFor(s, w, s.memo.value);
      assert WaitsFor(s', w, s'.memo.value);
    }
  }

  /** A step that touches neither store, flights nor log. */
  lemma {:induction false} AsideKeeps(s: State, a: Action)
    requires Inv(s) && (a.SignOut? || a.SessionEnds? || a.Start?)
    ensures Inv(Step(s, a))
  {
    var s' := Step(s, a);
    if s.memo.Some? {
      var w :| WaitsFor(s, w, s.memo.value);
      assert WaitsFor(s', w, s'.memo.value);
    }
  }

  lemma {:induction false} StepKeeps(s: State, a: Action)
    requires Inv(s)
    ensures Inv(Step(s, a))
  {
    match a
    case Answered(id, unauthorized) =>
      if id in s.requests {
        AnswerKeeps(s, id, unauthorized);
      }
    case Serve(f, allowed) =>
      if Unanswered(s, f) {
        ServeKeeps(s, f, allowed);
      }
    case Unreached(f) =>
      if Unanswered(s, f) {
        UnreachedKeeps(s, f);
      }
    case Settle(f) =>
      if f in s.wire && s.wire[f].answer.Some? {
        SettleKeeps(s, f);
      }
    case SignIn => SignInKeeps(s);
    case _ => AsideKeeps(s, a);
  }

  lemma {:induction false} RunKeeps(s: State, actions: seq<Action>)
    requires Inv(s)
    ensures Inv(Run(s, actions))
    decreases |actions|
  {
    if actions != [] {
      StepKeeps(s, actions[0]);
      RunKeeps(Step(s, actions[0]), actions[1..]);
    }
  }

  lemma {:induction false} ReachedInv(actions: seq<Action>)
    ensures Inv(Run(INIT, actions))
  {
    RunKeeps(INIT, actions);
  }

  // ----- what the user relies on -----

  /** For any interleaving of any number of requests, at most one refresh is outstanding, and nobody waits without one. */
  lemma {:induction false} RefreshesNeverOverlap(actions: seq<Action>)
    ensures |Run(INIT, actions).wire| <= 1
    ensures forall id :: id in Run(INIT, actions).requests && Run(INIT, actions).requests[id].Waiting? ==>
      Run(INIT, actions).requests[id].flight in Run(INIT, actions).wire
  {
    var s := Run(INIT, actions);
    ReachedInv(actions);
    if s.memo.Some? {
      assert s.wire.Keys == {s.memo.value};
    } else {
      assert s.wire.Keys == {};
    }
  }

  /** No refresh is ever refused because of rotation: what reaches the server was never used before. */
  lemma {:induction false} NeverRefusedForRotation(actions: seq<Action>, f: FlightId)
    requires Unanswered(Run(INIT, actions), f)
    ensures Run(INIT, actions).wire[f].token !in Run(INIT, actions).rotated
    ensures
      var s := Run(INIT, actions);
      forall i :: 0 <= i < |s.log| && s.log[i].token == s.wire[f].token ==> !s.log[i].accepted
  {
    ReachedInv(actions);
  }

  /** Over any run each token is accepted at most once, and is never presented again after it was accepted. */
  lemma {:induction false} AcceptedTokenNeverPresentedAgain(actions: seq<Action>, i: nat, j: nat)
    requires i < j < |Run(INIT, actions).log| && Run(INIT, actions).log[i].accepted
    ensures Run(INIT, actions).log[j].token != Run(INIT, actions).log[i].token
  {
    ReachedInv(actions);
  }

  predicate DistinctTokens(log: seq<Presentation>) {
    forall i, j :: 0 <= i < j < |log| ==> log[i].token != log[j].token
  }

  /** The server handles a refresh that the client opened although the stored token had come back denied and was kept. */
  predicate RepeatsKept(s: State, a: Action) {
    a.Serve? && Unanswered(s, a.flight) && s.wire[a.flight].again
  }

  lemma {:induction false} StepKeepsDistinct(s: State, a: Action)
    requires Inv(s)
    ensures DistinctTokens(Step(s, a).log) <==> DistinctTokens(s.log) && !RepeatsKept(s, a)
  {
    var s' := Step(s, a);
    if a.Serve? && Unanswered(s, a.flight) {
      var n, t := |s.log|, s.wire[a.flight].token;
      assert s'.log[..n] == s.log && s'.log[n].token == t;
      assert forall i :: 0 <= i < n ==> s'.log[i] == s.log[i];
      assert s.wire[a.flight].again <==> Presented(s.log, t);
    } else {
      assert s'.log == s.log;
    }
  }

  /**
   Over any run every refresh token is presented at most once exactly when no refresh is handled that was opened on a
   kept token: one that came back denied to keeping waiters only, and that no sign-in, sign-out or clear replaced.
   */
  lemma {:induction false} PresentedAtMostOnceExactly(actions: seq<Action>)
    ensures DistinctTokens(Run(INIT, actions).log)
      <==> forall k :: 0 <= k < |actions| ==> !RepeatsKept(Run(INIT, actions[..k]), actions[k])
    decreases |actions|
  {
    if actions != [] {
      var n := |actions| - 1;
      var earlier := actions[..n];
      PresentedAtMostOnceExactly(earlier);
      assert actions == earlier + [actions[n]];
      RunAppend(INIT, earlier, [actions[n]]);
      RunOne(Run(INIT, earlier), actions[n]);
      ReachedInv(earlier);
      StepKeepsDistinct(Run(INIT, earlier), actions[n]);
      assert forall k :: 0 <= k < n ==> actions[..k] == earlier[..k] && actions[k] == earlier[k];
    }
  }

  // ----- which callers are safe -----

  predicate UsesOnly(actions: seq<Action>, kinds: set<Kind>) {
    forall k :: 0 <= k < |actions| && actions[k].Start? ==> actions[k].kind in kinds
  }

  /** Every refresh token is presented at most once, over every run of requests of these kinds. */
  ghost predicate PresentsOnce(kinds: set<Kind>) {
    forall actions: seq<Action> :: UsesOnly(actions, kinds) ==> DistinctTokens(Run(INIT, actions).log)
  }

  ghost predicate AllClearing(s: State) {
    && !s.kept
    && (forall f :: f in s.wire ==> !s.wire[f].again)
    && (forall id :: id in s.requests && (s.requests[id].Sent? || s.requests[id].Waiting?) ==> s.requests[id].kind == Clearing)
  }

  lemma {:induction false} StepKeepsClearing(s: State, a: Action)
    requires Inv(s) && AllClearing(s) && (a.Start? ==> a.kind == Clearing)
    ensures AllClearing(Step(s, a)) && !RepeatsKept(s, a)
  {
    if a.Settle? && a.flight in s.wire && s.wire[a.flight].answer.Some? {
      var w :| WaitsFor(s, w, s.memo.value);
      assert s.requests[w].kind == Clearing;
      assert ClearsAfter(s, a.flight);
    }
  }

  lemma {:induction false} RunKeepsDistinct(s: State, actions: seq<Action>)
    requires Inv(s) && AllClearing(s) && UsesOnly(actions, {Clearing}) && DistinctTokens(s.log)
    ensures DistinctTokens(Run(s, actions).log)
    decreases |actions|
  {
    if actions != [] {
      StepKeepsClearing(s, actions[0]);
      StepKeepsDistinct(s, actions[0]);
      StepKeeps(s, actions[0]);
      assert forall k :: 0 <= k < |actions[1..]| ==> actions[1..][k] == actions[k + 1];
      RunKeepsDistinct(Step(s, actions[0]), actions[1..]);
    }
  }

  /** api() and apiFetch() present every refresh token at most once, whatever the server answers. */
  lemma {:induction false} ClearingPresentsOnce(actions: seq<Action>)
    requires UsesOnly(actions, {Clearing})
    ensures DistinctTokens(Run(INIT, actions).log)
  {
    RunKeepsDistinct(INIT, actions);
  }

  /** The promise holds over all runs exactly for callers that do not include authedFetch(). */
  lemma {:induction false} PresentsOnceExactly(kinds: set<Kind>)
    ensures PresentsOnce(kinds) <==> Keeping !in kinds
  {
    if Keeping !in kinds {
      forall actions: seq<Action> | UsesOnly(actions, kinds)
        ensures DistinctTokens(Run(INIT, actions).log)
      {
        forall k | 0 <= k < |actions| && actions[k].Start?
          ensures actions[k].kind in {Clearing}
        {
          var kind := actions[k].kind;
          assert kind in kinds && kind != Keeping;
          assert kind == Clearing || kind == Keeping;
        }
        ClearingPresentsOnce(actions);
      }
    } else {
      RefusedTokenIsPresentedAgain();
      var log := Run(INIT, TWO_ROUNDS).log;
      assert log[0].token == log[1].token;
      assert UsesOnly(TWO_ROUNDS, kinds);
    }
  }

  /** The actions of one authedFetch() request that is answered 401 and whose refresh the server denies. */
  function DeniedRound(id: RequestId, flight: FlightId): seq<Action> {
    [Start(id, Keeping), Answered(id, true), Serve(flight, false), Settle(flight)]
  }

  const TWO_ROUNDS := [SignIn] + DeniedRound(0, 1) + DeniedRound(1, 2)

  /** authedFetch() leaves a refused token in the store, and the next 401 presents it again. */
  lemma {:induction false} RefusedTokenIsPresentedAgain()
    ensures Run(INIT, TWO_ROUNDS).log == [Presentation(0, false), Presentation(0, false)]
  {
    var s1 := Step(INIT, SignIn);
    RunAppend(INIT, [SignIn] + DeniedRound(0, 1), DeniedRound(1, 2));
    RunAppend(INIT, [SignIn], DeniedRound(0, 1));
    RunOne(INIT, SignIn);
    RoundRepeats(s1, 0);
    assert Run(s1, DeniedRound(0, 1)).requests == map[0 := Finished];
    RoundRepeats(Run(s1, DeniedRound(0, 1)), 1);
    assert [Presentation(0, false)] + [Presentation(0, false)] == [Presentation(0, false), Presentation(0, false)];
  }

  /** A denied round leaves the store as it was and the token in the log once more. */
  lemma {:induction false} RoundRepeats(s: State, id: RequestId)
    requires s.memo.None? && s.wire == map[] && id !in s.requests && s.store.Some?
    requires forall r :: r in s.requests ==> !s.requests[r].Waiting?
    ensures
      var s' := Run(s, DeniedRound(id, s.next));
      && s'.memo.None? && s'.wire == map[] && s'.store == s.store && s'.next == s.next + 1
      && s'.requests == s.requests[id := Finished]
      && s'.log == s.log + [Presentation(s.store.value, false)]
  {
    var f, round := s.next, DeniedRound(id, s.next);
    var s1 := Step(s, round[0]);
    var s2 := Step(s1, round[1]);
    assert s2.wire == map[f := Flight(s.store.value, s.kept, None)] && s2.requests[id] == Waiting(Keeping, f);
    var s3 := Step(s2, round[2]);
    assert !ClearsAfter(s3, f);
    var s4 := Step(s3, round[3]);
    assert s4.wire == map[];
    assert s4.requests == s.requests[id := Finished];
    RunSteps(s, round);
  }

  lemma {:induction false} RunSteps(s: State, a: seq<Action>)
    requires |a| == 4
    ensures Run(s, a) == Step(Step(Step(Step(s, a[0]), a[1]), a[2]), a[3])
  {
    RunAppend(s, a[..1] + a[1..2] + a[2..3], a[3..]);
    RunAppend(s, a[..1] + a[1..2], a[2..3]);
    RunAppend(s, a[..1], a[1..2]);
    assert a == a[..1] + a[1..2] + a[2..3] + a[3..];
    assert a[..1] == [a[0]] && a[1..2] == [a[1]] && a[2..3] == [a[2]] && a[3..] == [a[3]];
    RunOne(s, a[0]);
    RunOne(Run(s, [a[0]]), a[1]);
    RunOne(Run(s, [a[0]] + [a[1]]), a[2]);
    RunOne(Run(s, [a[0]] + [a[1]] + [a[2]]), a[3]);
  }

  lemma {:induction false} RunOne(s: State, a: Action)
    ensures Run(s, [a]) == Step(s, a)
  {
    assert [a][1..] == [];
  }

  lemma {:induction false} RunAppend(s: State, a: seq<Action>, b: seq<Action>)
    ensures Run(s, a + b) == Run(Run(s, a), b)
    decreases |a|
  {
    if a == [] {
      assert a + b == b;
    } else {
      assert (a + b)[1..] == a[1..] + b;
      RunAppend(Step(s, a[0]), a[1..], b);
    }
  }
}
