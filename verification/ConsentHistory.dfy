/** The consent protocol told from its events: what each request and each confirm call owes to the event that made it. */
module ConsentHistory {
  import opened Results
  import opened Consent

  /** A transfer request as it came in. */
  datatype Arrived = Arrived(at: nat, key: Key, autoAccept: bool, space: bool, watched: bool)

  datatype Call = Call(key: Key, accepted: bool)

  /** The seconds that have passed. */
  function Clock(es: seq<Event>): nat {
    if es == [] then 0
    else Clock(es[..|es| - 1]) + match es[|es| - 1] case Pass(seconds) => seconds case _ => 0
  }

  function Arrivals(es: seq<Event>): seq<Arrived> {
    if es == [] then []
    else
      var before := es[..|es| - 1];
      match es[|es| - 1]
      case Arrive(key, autoAccept, space, watched) =>
        Arrivals(before) + [Arrived(Clock(before), key, autoAccept, space, watched)]
      case _ => Arrivals(before)
  }

  function Calls(es: seq<Event>): seq<Call> {
    if es == [] then []
    else match es[|es| - 1]
      case Take(key, accepted) => Calls(es[..|es| - 1]) + [Call(key, accepted)]
      case _ => Calls(es[..|es| - 1])
  }

  // ----- Requests and their arrivals -----

  predicate EndsAs(r: Request, outcome: Outcome) {
    !r.phase.Waiting? && r.phase.outcome == outcome
  }

  /** The request is the one that arrived, and is answered without the user exactly as the arrival says. */
  predicate MadeBy(r: Request, a: Arrived) {
    && r.key == a.key && r.deadline == a.at + 120
    && (EndsAs(r, AutoAccepted) <==> a.autoAccept)
    && (EndsAs(r, DiskFull) <==> !a.autoAccept && !a.space)
    && (EndsAs(r, ConsentRequired) <==> !a.autoAccept && a.space && !a.watched)
  }

  predicate RequestsMade(s: State, arrivals: seq<Arrived>) {
    |s.requests| == |arrivals| && forall n :: 0 <= n < |arrivals| ==> MadeBy(s.requests[n], arrivals[n])
  }

  predicate CallsMade(s: State, calls: seq<Call>) {
    |s.confirms| == |calls|
    && forall c :: 0 <= c < |calls| ==> s.confirms[c].key == calls[c].key && s.confirms[c].accepted == calls[c].accepted
  }

  /** Offers and sweeps keep to their requests' deadlines. */
  predicate OnTime(s: State) {
    && (forall k <- s.offers :: 
         s.offers[k].request < |s.requests| && s.offers[k].expires == s.requests[s.offers[k].request].deadline)
    && (forall r <- s.requests :: r.swept ==> s.now >= r.deadline)
  }

  /** No confirm call, no sweep and no newer offer has settled the request yet. */
  predicate Open(s: State, n: nat)
    requires n < |s.requests|
  {
    Asked(s.requests[n]) && Unused(s.requests[n]) && forall c <- s.confirms :: TakenBy(c) != Some(n)
  }

  predicate Tabled(s: State, n: nat)
    requires n < |s.requests|
  {
    var key := s.requests[n].key;
    key in s.offers && s.offers[key].request == n && s.offers[key].sender
  }

  predicate OpenAreTabled(s: State) {
    forall n :: 0 <= n < |s.requests| && Open(s, n) ==> Tabled(s, n)
  }

  /** What a step leaves of a request: its name, its deadline, and whether the user was asked. */
  predicate Same(r: Request, r': Request) {
    && r'.key == r.key && r'.deadline == r.deadline
    && forall o :: o in {AutoAccepted, DiskFull, ConsentRequired} ==> (EndsAs(r', o) <==> EndsAs(r, o))
  }

  lemma StepLeavesSame(s: State, e: Event, n: nat)
    requires Sound(s) && Closed(s) && Enabled(s, e) && n < |s.requests|
    ensures n < |Step(s, e).requests| && Same(s.requests[n], Step(s, e).requests[n])
  {
  }

  lemma StepMakesRequests(es: seq<Event>, e: Event, s: State)
    requires Sound(s) && Closed(s) && Enabled(s, e) && RequestsMade(s, Arrivals(es)) && s.now == Clock(es)
    ensures RequestsMade(Step(s, e), Arrivals(es + [e])) && Step(s, e).now == Clock(es + [e])
  {
    assert (es + [e])[..|es|] == es;
    forall n | 0 <= n < |s.requests| ensures MadeBy(Step(s, e).requests[n], Arrivals(es)[n]) {
      StepLeavesSame(s, e, n);
      assert MadeBy(s.requests[n], Arrivals(es)[n]);
    }
  }

  lemma StepMakesCalls(es: seq<Event>, e: Event, s: State)
    requires Sound(s) && Closed(s) && Enabled(s, e) && CallsMade(s, Calls(es))
    ensures CallsMade(Step(s, e), Calls(es + [e]))
  {
    assert (es + [e])[..|es|] == es;
  }

  lemma StepKeepsExpiry(s: State, e: Event, k: Key)
    requires Sound(s) && Closed(s) && Enabled(s, e) && OnTime(s) && k in Step(s, e).offers
    ensures var s' := Step(s, e);
            s'.offers[k].request < |s'.requests| && s'.offers[k].expires == s'.requests[s'.offers[k].request].deadline
  {
    if k in s.offers && s.offers[k].request == Step(s, e).offers[k].request {
      StepLeavesSame(s, e, s.offers[k].request);
    }
  }

  lemma StepSweepsOnTime(s: State, e: Event, n: nat)
    requires Sound(s) && Closed(s) && Enabled(s, e) && OnTime(s) && n < |Step(s, e).requests|
    ensures var r := Step(s, e).requests[n]; r.swept ==> Step(s, e).now >= r.deadline
  {
    if n < |s.requests| {
      assert s.requests[n] in s.requests;
    }
  }

  lemma StepKeepsOnTime(s: State, e: Event, s': State)
    requires Sound(s) && Closed(s) && Enabled(s, e) && OnTime(s) && s' == Step(s, e)
    ensures OnTime(s')
  {
    forall k <- s'.offers
      ensures s'.offers[k].request < |s'.requests| && s'.offers[k].expires == s'.requests[s'.offers[k].request].deadline
    {
      StepKeepsExpiry(s, e, k);
    }
    forall n | 0 <= n < |s'.requests| ensures s'.requests[n].swept ==> s'.now >= s'.requests[n].deadline {
      StepSweepsOnTime(s, e, n);
    }
  }

  lemma UnusedWasUnused(s: State, e: Event, n: nat)
    requires Sound(s) && Closed(s) && Enabled(s, e) && n < |s.requests| && Unused(Step(s, e).requests[n])
    ensures Unused(s.requests[n])
  {
  }

  lemma OpenWasOpen(s: State, e: Event, n: nat, s': State)
    requires Sound(s) && Closed(s) && Enabled(s, e) && s' == Step(s, e) && n < |s.requests| && Open(s', n)
    ensures Open(s, n)
  {
    UnusedWasUnused(s, e, n);
    StepLeavesSame(s, e, n);
    forall i | 0 <= i < |s.confirms| ensures TakenBy(s.confirms[i]) != Some(n) {
      assert s'.confirms[i] in s'.confirms;
    }
  }

  lemma TabledStays(s: State, e: Event, n: nat, s': State)
    requires Sound(s) && Closed(s) && Enabled(s, e) && s' == Step(s, e) && n < |s.requests| && Tabled(s, n) && Open(s', n)
    ensures Tabled(s', n)
  {
    if e.Take? {
      assert s'.confirms[|s.confirms|] in s'.confirms;
    }
  }

  lemma StepKeepsOpenTabled(s: State, e: Event, s': State)
    requires Sound(s) && Closed(s) && Enabled(s, e) && OpenAreTabled(s) && s' == Step(s, e)
    ensures OpenAreTabled(s')
  {
    forall n | 0 <= n < |s'.requests| && Open(s', n) ensures Tabled(s', n) {
      if n < |s.requests| {
        OpenWasOpen(s, e, n, s');
        TabledStays(s, e, n, s');
      }
    }
  }

  // ----- Whole runs -----

  ghost predicate Told(es: seq<Event>, s: State) {
    && Sound(s) && Closed(s) && s.now == Clock(es)
    && RequestsMade(s, Arrivals(es)) && CallsMade(s, Calls(es)) && OnTime(s) && OpenAreTabled(s)
  }

  lemma StepIsTold(es: seq<Event>, e: Event, s: State)
    requires Told(es, s) && Enabled(s, e)
    ensures Told(es + [e], Step(s, e))
  {
    StepKeepsSound(s, e, Step(s, e));
    StepMakesRequests(es, e, s);
    StepMakesCalls(es, e, s);
    StepKeepsOnTime(s, e, Step(s, e));
    StepKeepsOpenTabled(s, e, Step(s, e));
  }

  lemma {:induction false} RunsAreTold(es: seq<Event>, s: State)
    requires Execute(INITIAL, es) == Some(s)
    ensures Told(es, s)
  {
    if es != [] {
      var before, e := es[..|es| - 1], es[|es| - 1];
      assert es == before + [e];
      RunsAreTold(before, Execute(INITIAL, before).value);
      StepIsTold(before, e, Execute(INITIAL, before).value);
    }
  }

  /** A confirm call for the request's key, with that answer, took the sender of this very request and used it. */
  ghost predicate Decided(es: seq<Event>, s: State, n: nat, accepted: bool)
    requires n < |Arrivals(es)| && |s.confirms| == |Calls(es)|
  {
    exists c :: 0 <= c < |Calls(es)| && Calls(es)[c] == Call(Arrivals(es)[n].key, accepted)
                && TakenBy(s.confirms[c]) == Some(n) && !s.confirms[c].stage.Took?
  }

  /** Another transfer request used the same key. */
  predicate ArrivedAgain(arrivals: seq<Arrived>, n: nat)
    requires n < |arrivals|
  {
    exists m :: 0 <= m < |arrivals| && m != n && arrivals[m].key == arrivals[n].key
  }

  /** What the outcome of a request implies about the events. */
  ghost predicate Explained(es: seq<Event>, s: State, n: nat)
    requires n < |s.requests| == |Arrivals(es)| && |s.confirms| == |Calls(es)|
  {
    var r, a := s.requests[n], Arrivals(es)[n];
    && MadeBy(r, a) && r.sent <= 1
    && (EndsAs(r, AutoAccepted) || EndsAs(r, Accepted) ==> a.autoAccept || Decided(es, s, n, true))
    && (EndsAs(r, Declined) ==> Decided(es, s, n, false) || Clock(es) >= a.at + 120)
    && (EndsAs(r, ConnectionLost) ==> ArrivedAgain(Arrivals(es), n))
    && (EndsAs(r, TimedOut) ==> Clock(es) >= a.at + 120)
  }

  lemma ConfirmedIsDecided(es: seq<Event>, s: State, n: nat, v: bool)
    requires Told(es, s) && n < |s.requests| && Confirmed(s, n, v)
    ensures Decided(es, s, n, v)
  {
    var c :| c in s.confirms && TakenBy(c) == Some(n) && !c.stage.Took? && c.accepted == v;
    var i :| 0 <= i < |s.confirms| && s.confirms[i] == c;
    assert CallSound(s, c) && MadeBy(s.requests[n], Arrivals(es)[n]);
    assert Calls(es)[i] == Call(Arrivals(es)[n].key, v);
  }

  lemma ReuseIsAnArrival(es: seq<Event>, s: State, n: nat)
    requires Told(es, s) && n < |s.requests| && KeyReused(s, n)
    ensures ArrivedAgain(Arrivals(es), n)
  {
    var m :| 0 <= m < |s.requests| && m != n && s.requests[m].key == s.requests[n].key;
    assert MadeBy(s.requests[m], Arrivals(es)[m]) && MadeBy(s.requests[n], Arrivals(es)[n]);
  }

  lemma TellsWhy(es: seq<Event>, s: State, n: nat)
    requires Told(es, s) && n < |s.requests|
    ensures Explained(es, s, n)
  {
    var r := s.requests[n];
    assert RequestSound(s, n) && MadeBy(r, Arrivals(es)[n]) && r in s.requests;
    if r.value.Some? && Confirmed(s, n, r.value.value) {
      ConfirmedIsDecided(es, s, n, r.value.value);
    }
    if KeyReused(s, n) {
      ReuseIsAnArrival(es, s, n);
    }
  }

  /**
   * In every state of every interleaving, request `n` is the `n`-th that came in: accepted without asking exactly if its
   * peer is auto-accepted, and else refused at once exactly for want of space or of a watcher. Otherwise it is accepted
   * only if a confirm call for its key said yes and used the sender of that very request, declined only by such a call
   * that said no or once its 120 seconds are over, timed out only then, and lost only if its key came in again. No two
   * confirm calls take the same sender, and no sender is used twice.
   */
  lemma FirstConfirmWins(es: seq<Event>, s: State)
    requires Execute(INITIAL, es) == Some(s)
    ensures |s.requests| == |Arrivals(es)| && |s.confirms| == |Calls(es)| && OneCallPerRequest(s)
    ensures forall n :: 0 <= n < |s.requests| ==> Explained(es, s, n)
  {
    RunsAreTold(es, s);
    forall n | 0 <= n < |s.requests| ensures Explained(es, s, n) {
      TellsWhy(es, s, n);
    }
  }

  /**
   * In every reachable state a confirm call takes a sender exactly if a request under its key is open, and then that
   * request's; there is at most one.
   */
  lemma TakesTheOpenOne(es: seq<Event>, s: State, key: Key, accepted: bool, n: nat)
    requires Execute(INITIAL, es) == Some(s) && Closed(s) && n < |s.requests|
    ensures var calls := Step(s, Take(key, accepted)).confirms;
            |calls| == |s.confirms| + 1
            && (TakenBy(calls[|s.confirms|]) == Some(n) <==> s.requests[n].key == key && Open(s, n))
  {
    RunsAreTold(es, s);
  }
}
