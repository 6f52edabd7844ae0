/** What a refresh does for the requests that wait for it, and when one is made. */
module BrowserLaws {
  import opened Wrappers
  import opened Browser

  /** A first 401 joins the call in flight, or makes one with the stored token, or fails at once without one. */
  lemma {:induction false} UnauthorizedLaw(s: State, id: RequestId, kind: Kind)
    requires id in s.requests && s.requests[id] == Sent(kind)
    ensures
      var s' := Step(s, Answered(id, true));
      && (s.memo.Some? ==> s' == s.(requests := s.requests[id := Waiting(kind, s.memo.value)]))
      && (s.memo.None? && s.store.None? ==> s' == s.(requests := s.requests[id := Finished]))
      && (s.memo.None? && s.store.Some? ==>
            && s'.memo == Some(s.next) && s'.wire == s.wire[s.next := Flight(s.store.value, s.kept, None)]
            && s'.requests == s.requests[id := Waiting(kind, s.next)] && s'.store == s.store)
  {}

  /** A retry is answered for good, and so is a request that was not refused. */
  lemma {:induction false} AnsweredLaw(s: State, id: RequestId, unauthorized: bool)
    requires id in s.requests && (s.requests[id].Resent? || (s.requests[id].Sent? && !unauthorized))
    ensures Step(s, Answered(id, unauthorized)) == s.(requests := s.requests[id := Finished])
  {}

  /** A refresh with a live token gives the store a new live token, sends every waiter again, and retires the old token. */
  lemma {:induction false} GrantedLaw(s: State, f: FlightId)
    requires Inv(s) && Unanswered(s, f) && s.wire[f].token in s.live
    ensures
      var s' := Step(Step(s, Serve(f, true)), Settle(f));
      && s'.store == Some(s.next) && s.next in s'.live && s.wire[f].token !in s'.live && s'.memo.None? && s'.wire == map[]
      && (forall id :: id in s.requests ==>
            s'.requests[id] == if s.requests[id].Waiting? && s.requests[id].flight == f then Resent else s.requests[id])
  {
    var served := Step(s, Serve(f, true));
    SettleAnswered(s, served, f);
  }

  lemma {:induction false} SettleAnswered(s: State, served: State, f: FlightId)
    requires Inv(s) && f in s.wire && served.wire.Keys == s.wire.Keys && served.wire[f].answer.Some?
    ensures Step(served, Settle(f)).wire == map[]
  {
    assert forall g :: g in s.wire ==> g == f;
  }

  /** A denied one finishes every waiter, and clears the store exactly when one of them is a clearing caller. */
  lemma {:induction false} DeniedLaw(s: State, f: FlightId)
    requires Inv(s) && Unanswered(s, f)
    ensures
      var s' := Step(Step(s, Serve(f, false)), Settle(f));
      var clearing := exists id :: id in s.requests && s.requests[id] == Waiting(Clearing, f);
      && s'.store == (if clearing then None else s.store) && s'.memo.None? && s'.wire == map[] && s'.live == s.live
      && (forall id :: id in s.requests ==>
            s'.requests[id] == if s.requests[id].Waiting? && s.requests[id].flight == f then Finished else s.requests[id])
  {
    var served := Step(s, Serve(f, false));
    SettleAnswered(s, served, f);
    assert ClearsAfter(served, f) <==> exists id :: id in s.requests && s.requests[id] == Waiting(Clearing, f) by {
      assert forall id :: id in s.requests ==> (WaitsFor(served, id, f) && served.requests[id].kind == Clearing <==> s.requests[id] == Waiting(Clearing, f));
    }
  }

  /** The server grants exactly a live token of a session it allows; signing in stores one, signing out retires it. */
  lemma {:induction false} ServerLaw(s: State, f: FlightId, allowed: bool)
    requires Unanswered(s, f)
    ensures
      var answer := Step(s, Serve(f, allowed)).wire[f].answer;
      answer == Some(if s.wire[f].token in s.live && allowed then Fresh(s.next) else Denied)
    ensures Step(s, SignIn).store == Some(s.next) && s.next in Step(s, SignIn).live
    ensures Step(s, SignOut).store == None && (s.store.Some? ==> s.store.value !in Step(s, SignOut).live)
  {}
}
