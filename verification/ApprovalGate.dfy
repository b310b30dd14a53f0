/**
  * The approval gate of the web server: who gets a session token. A request checks its credential in one step and stores
  * its session in a later one; steps of different requests and of the host interleave freely.
  */
module ApprovalGate {
  import opened Results

  datatype Status = Pending | Accepted | Rejected

  datatype Session = Session(status: Status, token: Option<string>)

  /** A request between its credential check and its answer. */
  datatype Call = Checked(credential: Option<string>, valid: bool, auto: bool) | Finished

  datatype Gate = Gate(
    token: string, pin: Option<string>, auto: bool, sessions: map<string, Session>, calls: seq<Call>)

  datatype Event =
    | Check(credential: Option<string>)
    | Store(call: nat, id: string, token: string)
    | Respond(id: string, accepted: bool, token: string)
    | SetAuto(enabled: bool)

  /** A credential is the main token, the PIN, or the token of an accepted session. */
  predicate IsValidToken(g: Gate, t: string) {
    || t == g.token
    || g.pin == Some(t)
    || exists id <- g.sessions :: g.sessions[id].status == Accepted && g.sessions[id].token == Some(t)
  }

  /** A generated string is new to the server. */
  predicate Fresh(g: Gate, t: string) {
    && t != g.token && g.pin != Some(t)
    && t !in g.sessions && forall id <- g.sessions :: g.sessions[id].token != Some(t)
  }

  predicate Enabled(g: Gate, e: Event) {
    match e
    case Check(_) => true
    case Store(c, id, t) => c < |g.calls| && g.calls[c].Checked? && id != t && Fresh(g, id) && Fresh(g, t)
    case Respond(_, _, t) => Fresh(g, t)
    case SetAuto(_) => true
  }

  datatype Response = Ok200(status: Status) | Forbidden | AlreadyAnswered | Unknown | NoResponse

  /** The answer to a request: a valid credential gets a token, and without one the host decides unless one is required. */
  function StoreStep(g: Gate, c: nat, id: string, t: string): (Gate, Response)
    requires Enabled(g, Store(c, id, t))
  {
    var call := g.calls[c];
    var g1 := g.(calls := g.calls[c := Finished]);
    if call.valid then (g1.(sessions := g.sessions[id := Session(Accepted, Some(t))]), Ok200(Accepted))
    else if !call.auto && g.pin.None? then (g1.(sessions := g.sessions[id := Session(Pending, None)]), Ok200(Pending))
    else (g1, Forbidden)
  }

  function RespondStep(g: Gate, id: string, accepted: bool, t: string): (Gate, Response) {
    if id !in g.sessions then (g, Unknown)
    else if g.sessions[id].status != Pending then (g, AlreadyAnswered)
    else
      var answered := if accepted then Session(Accepted, Some(t)) else g.sessions[id].(status := Rejected);
      (g.(sessions := g.sessions[id := answered]), Ok200(answered.status))
  }

  function Step(g: Gate, e: Event): Gate
    requires Enabled(g, e)
  {
    match e
    case Check(credential) =>
      g.(calls := g.calls + [Checked(credential, credential.Some? && IsValidToken(g, credential.value), g.auto)])
    case Store(c, id, t) => StoreStep(g, c, id, t).0
    case Respond(id, accepted, t) => RespondStep(g, id, accepted, t).0
    case SetAuto(enabled) => g.(auto := enabled)
  }

  function Start(token: string, pin: Option<string>): Gate {
    Gate(token, pin, false, map[], [])
  }

  function Execute(g: Gate, es: seq<Event>): Option<Gate> {
    if es == [] then Some(g)
    else match Execute(g, es[..|es| - 1])
      case None => None
      case Some(g1) => if Enabled(g1, es[|es| - 1]) then Some(Step(g1, es[|es| - 1])) else None
  }

  // ----- Status -----

  /** What holds of every session: a token exactly if it was accepted, and no two sessions share one. */
  predicate SessionsSound(g: Gate) {
    && (forall id <- g.sessions :: g.sessions[id].token.Some? <==> g.sessions[id].status == Accepted)
    && (forall id <- g.sessions, id' <- g.sessions ::
          id != id' && g.sessions[id].token.Some? ==> g.sessions[id].token != g.sessions[id'].token)
  }

  /** A session that was answered never changes again; one still pending stays or is answered. */
  predicate Settled(g: Gate, g': Gate) {
    forall id <- g.sessions ::
      && id in g'.sessions
      && (g.sessions[id].status != Pending ==> g'.sessions[id] == g.sessions[id])
  }

  lemma StepSettles(g: Gate, e: Event)
    requires Enabled(g, e) && SessionsSound(g)
    ensures SessionsSound(Step(g, e)) && Settled(g, Step(g, e))
  {
  }

  /** A request's status changes at most once, and only from Pending; exactly the accepted ones carry a token. */
  lemma {:induction false} RunsSettle(g: Gate, es: seq<Event>)
    requires SessionsSound(g) && Execute(g, es).Some?
    ensures SessionsSound(Execute(g, es).value) && Settled(g, Execute(g, es).value)
  {
    if es != [] {
      RunsSettle(g, es[..|es| - 1]);
      StepSettles(Execute(g, es[..|es| - 1]).value, es[|es| - 1]);
    }
  }

  /** The host's first answer counts, for good: whatever happens later, a second one changes nothing. */
  lemma FirstAnswerCounts(g: Gate, id: string, accepted: bool, t: string, es: seq<Event>, g': Gate, again: bool, t': string)
    requires SessionsSound(g) && id in g.sessions && g.sessions[id].status == Pending && Fresh(g, t)
    requires Execute(Step(g, Respond(id, accepted, t)), es) == Some(g')
    ensures id in g'.sessions && g'.sessions[id].status == if accepted then Accepted else Rejected
    ensures accepted ==> IsValidToken(g', t)
    ensures RespondStep(g', id, again, t') == (g', AlreadyAnswered)
  {
    StepSettles(g, Respond(id, accepted, t));
    RunsSettle(Step(g, Respond(id, accepted, t)), es);
  }

  // ----- Provenance -----

  function Checks(es: seq<Event>): nat {
    if es == [] then 0 else Checks(es[..|es| - 1]) + if es[|es| - 1].Check? then 1 else 0
  }

  /** The credential of the `c`-th request was accounted for when it was checked. */
  predicate CallGrounded(token: string, pin: Option<string>, es: seq<Event>, c: nat)
    decreases |es|, 0
  {
    && es != []
    && var before, e := es[..|es| - 1], es[|es| - 1];
       if e.Check? && Checks(before) == c
       then e.credential.Some? && Grounded(token, pin, before, e.credential.value)
       else CallGrounded(token, pin, before, c)
  }

  predicate IsPending(g: Option<Gate>, id: string) {
    g.Some? && id in g.value.sessions && g.value.sessions[id].status == Pending
  }

  /** The host accepted a pending session with this token, or it went to a request whose own credential is accounted for. */
  predicate Issued(token: string, pin: Option<string>, before: seq<Event>, e: Event, t: string)
    decreases |before|, 1
  {
    match e
    case Respond(id, accepted, t') => accepted && t' == t && IsPending(Execute(Start(token, pin), before), id)
    case Store(c, _, t') => t' == t && CallGrounded(token, pin, before, c)
    case _ => false
  }

  /**
    * A run accounts for a credential: it is the main token or the PIN, or some event of the run issued it. The chain of
    * issuing events is finite, since each one is accounted for by the events before it.
    */
  predicate Grounded(token: string, pin: Option<string>, es: seq<Event>, t: string)
    decreases |es|
  {
    || t == token
    || pin == Some(t)
    || (es != [] && (Grounded(token, pin, es[..|es| - 1], t) || Issued(token, pin, es[..|es| - 1], es[|es| - 1], t)))
  }

  /** Whether approval is automatic after these events. */
  predicate AutoAfter(es: seq<Event>) {
    es != [] && if es[|es| - 1].SetAuto? then es[|es| - 1].enabled else AutoAfter(es[..|es| - 1])
  }

  /** Whether it was when the `c`-th request was checked. */
  predicate AutoAt(es: seq<Event>, c: nat) {
    && es != []
    && var before, e := es[..|es| - 1], es[|es| - 1];
       if e.Check? && Checks(before) == c then AutoAfter(before) else AutoAt(before, c)
  }

  /** The events account for the gate: for exactly the credentials that are valid, and for what each check found. */
  ghost predicate Accounted(g: Gate, es: seq<Event>) {
    && |g.calls| == Checks(es) && g.auto == AutoAfter(es)
    && (forall c :: 0 <= c < |g.calls| && g.calls[c].Checked? ==>
          && (g.calls[c].valid <==> CallGrounded(g.token, g.pin, es, c))
          && (g.calls[c].auto <==> AutoAt(es, c)))
    && forall t :: IsValidToken(g, t) <==> Grounded(g.token, g.pin, es, t)
  }

  /** The credentials that a step makes valid; none ceases to be. */
  predicate MadeValid(g: Gate, e: Event, t: string)
    requires Enabled(g, e)
  {
    match e
    case Store(c, _, t') => t' == t && g.calls[c].valid
    case Respond(id, accepted, t') => t' == t && accepted && IsPending(Some(g), id)
    case _ => false
  }

  lemma ValidAfterStep(g: Gate, e: Event, g': Gate, t: string)
    requires Enabled(g, e) && g' == Step(g, e)
    ensures IsValidToken(g', t) <==> IsValidToken(g, t) || MadeValid(g, e, t)
  {
    if id :| id in g.sessions && g.sessions[id].status == Accepted && g.sessions[id].token == Some(t) {
      assert g'.sessions[id] == g.sessions[id];
    }
    if MadeValid(g, e, t) {
      assert g'.sessions[e.id] == Session(Accepted, Some(t));
    }
  }

  lemma StepIsAccounted(g: Gate, es: seq<Event>, e: Event, g': Gate)
    requires Accounted(g, es) && Enabled(g, e) && g' == Step(g, e) && Execute(Start(g.token, g.pin), es) == Some(g)
    ensures Accounted(g', es + [e])
  {
    var es' := es + [e];
    assert es'[..|es|] == es;
    forall t ensures IsValidToken(g', t) <==> Grounded(g.token, g.pin, es', t) {
      ValidAfterStep(g, e, g', t);
      assert IsValidToken(g, t) <==> Grounded(g.token, g.pin, es, t);
    }
  }

  lemma {:induction false} RunsAreAccounted(token: string, pin: Option<string>, es: seq<Event>)
    requires Execute(Start(token, pin), es).Some?
    ensures var g := Execute(Start(token, pin), es).value; g.token == token && g.pin == pin && Accounted(g, es)
  {
    if es != [] {
      var before := es[..|es| - 1];
      RunsAreAccounted(token, pin, before);
      var g := Execute(Start(token, pin), before).value;
      StepIsAccounted(g, before, es[|es| - 1], Step(g, es[|es| - 1]));
      assert before + [es[|es| - 1]] == es;
    }
  }

  /**
    * In every run the server accepts exactly the credentials that go back, in finitely many steps, to the main token, the
    * PIN or the host's approval.
    */
  lemma ValidIffGrounded(token: string, pin: Option<string>, es: seq<Event>, t: string)
    requires Execute(Start(token, pin), es).Some?
    ensures IsValidToken(Execute(Start(token, pin), es).value, t) <==> Grounded(token, pin, es, t)
  {
    RunsAreAccounted(token, pin, es);
  }

  /** A session was added under `id` and nothing else changed. */
  predicate Added(g: Gate, g': Gate, id: string, s: Session) {
    g'.sessions.Keys == g.sessions.Keys + {id} && g'.sessions[id] == s
    && forall other <- g.sessions :: other != id ==> g'.sessions[other] == g.sessions[other]
  }

  /**
    * The answer to the `c`-th request, from the events: accepted with the new token exactly if its credential was
    * accounted for when checked; else left to the host exactly if approval was not automatic then and there is no PIN;
    * else forbidden, with no session made.
    */
  lemma AnswersAreExact(token: string, pin: Option<string>, es: seq<Event>, g: Gate, c: nat, id: string, t: string)
    requires Execute(Start(token, pin), es) == Some(g) && Enabled(g, Store(c, id, t))
    ensures var (g', answer) := StoreStep(g, c, id, t);
            if CallGrounded(token, pin, es, c) then
              answer == Ok200(Accepted) && Added(g, g', id, Session(Accepted, Some(t))) && IsValidToken(g', t)
            else if !AutoAt(es, c) && pin.None? then
              answer == Ok200(Pending) && Added(g, g', id, Session(Pending, None))
            else answer == Forbidden && g'.sessions == g.sessions
  {
    RunsAreAccounted(token, pin, es);
  }

  /** When the host accepts nobody and the main token and PIN are never presented, no run accounts for anything else. */
  lemma {:induction false} NothingFromNothing(token: string, pin: Option<string>, es: seq<Event>, t: string)
    requires forall e <- es :: e.Respond? ==> !e.accepted
    requires forall e <- es :: e.Check? ==> e.credential != Some(token) && (pin.Some? ==> e.credential != pin)
    requires Grounded(token, pin, es, t)
    ensures t == token || pin == Some(t)
    decreases |es|
  {
    if es != [] && t != token && pin != Some(t) {
      var before, e := es[..|es| - 1], es[|es| - 1];
      assert e in es;
      if Grounded(token, pin, before, t) {
        NothingFromNothing(token, pin, before, t);
      } else {
        NoCallFromNothing(token, pin, before, e.call);
      }
    }
  }

  lemma {:induction false} NoCallFromNothing(token: string, pin: Option<string>, es: seq<Event>, c: nat)
    requires forall e <- es :: e.Respond? ==> !e.accepted
    requires forall e <- es :: e.Check? ==> e.credential != Some(token) && (pin.Some? ==> e.credential != pin)
    ensures !CallGrounded(token, pin, es, c)
    decreases |es|
  {
    if es != [] {
      var before, e := es[..|es| - 1], es[|es| - 1];
      assert e in es;
      if e.Check? && Checks(before) == c {
        if e.credential.Some? && Grounded(token, pin, before, e.credential.value) {
          NothingFromNothing(token, pin, before, e.credential.value);
        }
      } else {
        NoCallFromNothing(token, pin, before, c);
      }
    }
  }

  /** So in such a run nothing but the main token and the PIN is ever valid. */
  lemma NobodyGetsIn(token: string, pin: Option<string>, es: seq<Event>, t: string)
    requires Execute(Start(token, pin), es).Some?
    requires forall e <- es :: e.Respond? ==> !e.accepted
    requires forall e <- es :: e.Check? ==> e.credential != Some(token) && (pin.Some? ==> e.credential != pin)
    ensures IsValidToken(Execute(Start(token, pin), es).value, t) <==> t == token || pin == Some(t)
  {
    ValidIffGrounded(token, pin, es, t);
    if Grounded(token, pin, es, t) {
      NothingFromNothing(token, pin, es, t);
    }
  }
}
