/**
  * The consent protocol: requests waiting for an answer, confirm calls and the expiry sweeper share one table of
  * pending offers. Every step below is what one task does between two lock acquisitions or awaits; steps of different
  * tasks interleave freely.
  */
module Consent {
  import opened Results

  type Key = string

  const OFFER_SECONDS: nat := 120

  datatype Outcome = AutoAccepted | DiskFull | ConsentRequired | Accepted | Declined | ConnectionLost | TimedOut

  /** How far a request has come. */
  datatype Phase = Waiting | Woken(outcome: Outcome) | Cleaned(outcome: Outcome) | Answered(outcome: Outcome)

  /**
    * A request together with the oneshot channel created for it: the value delivered to the waiting task, how often its
    * sender was used, and whether the sender was dropped unused.
    */
  datatype Request = Request(
    key: Key, deadline: nat, phase: Phase, value: Option<bool>, sent: nat, dropped: bool, swept: bool)

  /** An entry of the table: the request it was made for and whether it still holds the channel's sender. */
  datatype Offer = Offer(request: nat, sender: bool, expires: nat)

  datatype Stage = Took(request: nat) | Sent(request: nat) | Succeeded(request: nat) | Failed

  /** A confirm call from its first lock acquisition on. */
  datatype Confirm = Confirm(key: Key, accepted: bool, stage: Stage)

  datatype State = State(now: nat, offers: map<Key, Offer>, requests: seq<Request>, confirms: seq<Confirm>)

  datatype Event =
    | Arrive(key: Key, autoAccept: bool, space: bool, watched: bool)
    | Wake(request: nat)
    | TimeOut(request: nat)
    | CleanUp(request: nat)
    | Answer(request: nat)
    | Take(key: Key, accepted: bool)
    | Send(confirm: nat)
    | Forget(confirm: nat)
    | Expire(key: Key)
    | Pass(seconds: nat)

  /** Removes whatever entry the key has; a sender still in it is dropped with it. */
  function Remove(s: State, key: Key): State
    requires key in s.offers ==> s.offers[key].request < |s.requests|
  {
    if key !in s.offers then s
    else
      var o := s.offers[key];
      var requests := if o.sender then s.requests[o.request := s.requests[o.request].(dropped := true)] else s.requests;
      s.(offers := s.offers - {key}, requests := requests)
  }

  /** A send reaches the request only while its task still waits; otherwise the value is lost. */
  function Deliver(r: Request, v: bool): Request {
    r.(sent := r.sent + 1, value := if r.phase.Waiting? then Some(v) else r.value)
  }

  predicate Enabled(s: State, e: Event) {
    match e
    case Arrive(_, _, _, _) => true
    case Wake(n) =>
      n < |s.requests| && s.requests[n].phase.Waiting? && (s.requests[n].value.Some? || s.requests[n].dropped)
    case TimeOut(n) =>
      && n < |s.requests| && s.requests[n].phase.Waiting?
      && s.requests[n].value.None? && !s.requests[n].dropped && s.now >= s.requests[n].deadline
    case CleanUp(n) => n < |s.requests| && s.requests[n].phase.Woken?
    case Answer(n) => n < |s.requests| && s.requests[n].phase.Cleaned?
    case Take(_, _) => true
    case Send(c) => c < |s.confirms| && s.confirms[c].stage.Took?
    case Forget(c) => c < |s.confirms| && s.confirms[c].stage.Sent?
    case Expire(k) => k in s.offers && s.now >= s.offers[k].expires
    case Pass(_) => true
  }

  /** Table entries, and confirm calls, refer to requests that exist. */
  predicate Closed(s: State) {
    && (forall k <- s.offers :: s.offers[k].request < |s.requests|)
    && (forall c <- s.confirms :: !c.stage.Failed? ==> c.stage.request < |s.requests|)
  }

  function SetPhase(s: State, n: nat, phase: Phase): State
    requires n < |s.requests|
  {
    s.(requests := s.requests[n := s.requests[n].(phase := phase)])
  }

  /** A request that needs no consent is answered at once; otherwise an offer is put in the table. */
  function Arrival(s: State, key: Key, autoAccept: bool, space: bool, watched: bool): State
    requires Closed(s)
  {
    var r := Request(key, s.now + OFFER_SECONDS, Waiting, None, 0, false, false);
    if autoAccept then s.(requests := s.requests + [r.(phase := Answered(AutoAccepted))])
    else if !space then s.(requests := s.requests + [r.(phase := Answered(DiskFull))])
    else if !watched then s.(requests := s.requests + [r.(phase := Answered(ConsentRequired))])
    else
      var s1 := Remove(s, key);
      s1.(offers := s1.offers[key := Offer(|s1.requests|, true, s.now + OFFER_SECONDS)], requests := s1.requests + [r])
  }

  function Step(s: State, e: Event): State
    requires Closed(s) && Enabled(s, e)
  {
    match e
    case Arrive(key, autoAccept, space, watched) => Arrival(s, key, autoAccept, space, watched)
    case Wake(n) =>
      SetPhase(s, n, Woken(match s.requests[n].value
                           case None => ConnectionLost
                           case Some(v) => if v then Accepted else Declined))
    case TimeOut(n) => SetPhase(s, n, Woken(TimedOut))
    case CleanUp(n) => Remove(SetPhase(s, n, Cleaned(s.requests[n].phase.outcome)), s.requests[n].key)
    case Answer(n) => SetPhase(s, n, Answered(s.requests[n].phase.outcome))
    case Take(key, accepted) =>
      if key in s.offers && s.offers[key].sender then
        s.(offers := s.offers[key := s.offers[key].(sender := false)],
           confirms := s.confirms + [Confirm(key, accepted, Took(s.offers[key].request))])
      else s.(confirms := s.confirms + [Confirm(key, accepted, Failed)])
    case Send(c) =>
      var call := s.confirms[c];
      assert call in s.confirms;
      var n := call.stage.request;
      s.(requests := s.requests[n := Deliver(s.requests[n], call.accepted)],
         confirms := s.confirms[c := call.(stage := Sent(n))])
    case Forget(c) =>
      var call := s.confirms[c];
      Remove(s, call.key).(confirms := s.confirms[c := call.(stage := Succeeded(call.stage.request))])
    case Expire(key) =>
      var o := s.offers[key];
      var requests :=
        if o.sender then s.requests[o.request := Deliver(s.requests[o.request], false).(swept := true)] else s.requests;
      s.(offers := s.offers - {key}, requests := requests)
    case Pass(seconds) => s.(now := s.now + seconds)
  }

  const INITIAL := State(0, map[], [], [])

  // ----- The invariant -----

  /** The request whose sender a confirm call took. */
  function TakenBy(c: Confirm): Option<nat> {
    if c.stage.Failed? then None else Some(c.stage.request)
  }

  /** A sender that was neither used nor dropped. */
  predicate Unused(r: Request) {
    r.sent == 0 && !r.dropped && r.value == None && !r.swept
  }

  /** The peer's request went to the user. */
  predicate Asked(r: Request) {
    !r.phase.Waiting? ==> r.phase.outcome !in {AutoAccepted, DiskFull, ConsentRequired}
  }

  /** Entries belong to the request made under their key; a sender in the table is unused and held by no call. */
  predicate TableSound(s: State) {
    forall k <- s.offers ::
      && s.offers[k].request < |s.requests|
      && s.requests[s.offers[k].request].key == k && Asked(s.requests[s.offers[k].request])
      && (s.offers[k].sender ==>
            && Unused(s.requests[s.offers[k].request])
            && forall c <- s.confirms :: TakenBy(c) != Some(s.offers[k].request))
  }

  predicate CallSound(s: State, c: Confirm) {
    match TakenBy(c)
    case None => true
    case Some(n) =>
      && n < |s.requests| && s.requests[n].key == c.key && Asked(s.requests[n])
      && (if c.stage.Took? then Unused(s.requests[n])
          else s.requests[n].sent == 1 && !s.requests[n].dropped && !s.requests[n].swept
               && s.requests[n].value in {None, Some(c.accepted)})
  }

  predicate OneCallPerRequest(s: State) {
    forall i, j :: 0 <= i < j < |s.confirms| && TakenBy(s.confirms[i]).Some?
                   ==> TakenBy(s.confirms[i]) != TakenBy(s.confirms[j])
  }

  /** A confirm call with that answer took this request's sender and used it. */
  ghost predicate Confirmed(s: State, n: nat, v: bool) {
    exists c <- s.confirms :: TakenBy(c) == Some(n) && !c.stage.Took? && c.accepted == v
  }

  /** Another request used the same transfer id. */
  predicate KeyReused(s: State, n: nat)
    requires n < |s.requests|
  {
    exists m :: 0 <= m < |s.requests| && m != n && s.requests[m].key == s.requests[n].key
  }

  /** Every phase that a task can be in, and why it got there. */
  ghost predicate RequestSound(s: State, n: nat)
    requires n < |s.requests|
  {
    var r := s.requests[n];
    && r.sent <= 1 && (r.dropped ==> r.sent == 0) && (r.swept ==> r.sent == 1)
    && (r.value.Some? ==> r.sent == 1 && (Confirmed(s, n, r.value.value) || (r.swept && !r.value.value)))
    && (r.phase.Waiting? ==> (r.value.None? ==> r.sent == 0) && (r.dropped ==> KeyReused(s, n)))
    && (!r.phase.Waiting? ==> match r.phase.outcome
          case Accepted => r.value == Some(true)
          case Declined => r.value == Some(false)
          case ConnectionLost => r.dropped && r.value.None? && KeyReused(s, n)
          case TimedOut => r.value.None? && s.now >= r.deadline
          case _ => r.phase.Answered? && r.value.None?)
  }

  ghost predicate Sound(s: State) {
    && TableSound(s)
    && (forall c <- s.confirms :: CallSound(s, c))
    && OneCallPerRequest(s)
    && (forall n :: 0 <= n < |s.requests| ==> RequestSound(s, n))
  }

  lemma SoundIsClosed(s: State)
    requires Sound(s)
    ensures Closed(s)
  {
    forall c <- s.confirms ensures !c.stage.Failed? ==> c.stage.request < |s.requests| {
      assert CallSound(s, c);
    }
  }

  // ----- Every step keeps it -----

  predicate LaterStage(c: Confirm, c': Confirm) {
    TakenBy(c') == TakenBy(c) && c'.accepted == c.accepted && (c'.stage.Took? ==> c.stage.Took?)
  }

  /** Later states know at least as much: keys stay, confirm calls stay and keep what they took. */
  ghost predicate Extends(s: State, s': State) {
    && s.now <= s'.now && |s.requests| <= |s'.requests| && |s.confirms| <= |s'.confirms|
    && (forall n :: 0 <= n < |s.requests| ==> s'.requests[n].key == s.requests[n].key)
    && (forall n :: 0 <= n < |s.requests| ==> s'.requests[n].deadline == s.requests[n].deadline)
    && (forall i :: 0 <= i < |s.confirms| ==> LaterStage(s.confirms[i], s'.confirms[i]))
  }

  lemma ConfirmedStays(s: State, s': State, n: nat, v: bool)
    requires Extends(s, s') && Confirmed(s, n, v)
    ensures Confirmed(s', n, v)
  {
    var c :| c in s.confirms && TakenBy(c) == Some(n) && !c.stage.Took? && c.accepted == v;
    var i :| 0 <= i < |s.confirms| && s.confirms[i] == c;
    assert LaterStage(s.confirms[i], s'.confirms[i]);
    assert s'.confirms[i] in s'.confirms;
  }

  lemma KeyReuseStays(s: State, s': State, n: nat)
    requires Extends(s, s') && n < |s.requests| && KeyReused(s, n)
    ensures KeyReused(s', n)
  {
    var m :| 0 <= m < |s.requests| && m != n && s.requests[m].key == s.requests[n].key;
    assert s'.requests[m].key == s'.requests[n].key;
  }

  /** A request that a step does not touch stays sound. */
  lemma UntouchedStaysSound(s: State, s': State, n: nat)
    requires Extends(s, s') && n < |s.requests| && RequestSound(s, n) && s'.requests[n] == s.requests[n]
    ensures RequestSound(s', n)
  {
    var r := s.requests[n];
    if r.value.Some? && Confirmed(s, n, r.value.value) {
      ConfirmedStays(s, s', n, r.value.value);
    }
    if KeyReused(s, n) {
      KeyReuseStays(s, s', n);
    }
  }

  lemma PhaseKeepsSound(s: State, n: nat, phase: Phase, s': State)
    requires Sound(s) && n < |s.requests| && s' == SetPhase(s, n, phase) && RequestSound(s', n)
    requires Asked(s.requests[n]) ==> Asked(s'.requests[n])
    ensures Sound(s')
  {
    forall m | 0 <= m < |s'.requests| ensures RequestSound(s', m) {
      if m != n {
        UntouchedStaysSound(s, s', m);
      }
    }
    forall c <- s'.confirms ensures CallSound(s', c) {
      assert CallSound(s, c);
    }
  }

  /** What a change of phase leaves as it was. */
  lemma UntouchedFacts(s: State, s': State, n: nat)
    requires n < |s.requests| && Extends(s, s')
    ensures KeyReused(s, n) ==> KeyReused(s', n)
    ensures forall v :: Confirmed(s, n, v) ==> Confirmed(s', n, v)
  {
    if KeyReused(s, n) {
      KeyReuseStays(s, s', n);
    }
    forall v | Confirmed(s, n, v) ensures Confirmed(s', n, v) {
      ConfirmedStays(s, s', n, v);
    }
  }

  lemma WakeKeepsSound(s: State, n: nat, s': State)
    requires Sound(s) && Enabled(s, Wake(n)) && Closed(s) && s' == Step(s, Wake(n))
    ensures Sound(s')
  {
    assert RequestSound(s, n);
    UntouchedFacts(s, s', n);
    PhaseKeepsSound(s, n, s'.requests[n].phase, s');
  }

  lemma TimeOutKeepsSound(s: State, n: nat, s': State)
    requires Sound(s) && Enabled(s, TimeOut(n)) && Closed(s) && s' == Step(s, TimeOut(n))
    ensures Sound(s')
  {
    assert RequestSound(s, n);
    UntouchedFacts(s, s', n);
    PhaseKeepsSound(s, n, Woken(TimedOut), s');
  }

  /** Going on to clean up or to answer keeps the outcome. */
  lemma SameOutcomeKeepsSound(s: State, n: nat, phase: Phase, s': State)
    requires Sound(s) && n < |s.requests| && (s.requests[n].phase.Woken? || s.requests[n].phase.Cleaned?)
    requires !phase.Waiting? && phase.outcome == s.requests[n].phase.outcome && s' == SetPhase(s, n, phase)
    ensures Sound(s')
  {
    assert RequestSound(s, n);
    UntouchedFacts(s, s', n);
    PhaseKeepsSound(s, n, phase, s');
  }

  lemma RemoveKeepsSound(s: State, key: Key, s': State)
    requires Sound(s) && Closed(s) && s' == Remove(s, key)
    requires key in s.offers && s.offers[key].sender && s.requests[s.offers[key].request].phase.Waiting?
             ==> KeyReused(s, s.offers[key].request)
    ensures Sound(s')
  {
    if key in s.offers && s.offers[key].sender {
      var n := s.offers[key].request;
      assert RequestSound(s, n);
      UntouchedFacts(s, s', n);
      assert RequestSound(s', n);
      forall m | 0 <= m < |s'.requests| ensures RequestSound(s', m) {
        if m != n {
          UntouchedStaysSound(s, s', m);
        }
      }
      forall c <- s'.confirms ensures CallSound(s', c) {
        assert CallSound(s, c);
      }
    } else {
      forall m | 0 <= m < |s'.requests| ensures RequestSound(s', m) {
        UntouchedStaysSound(s, s', m);
      }
    }
  }

  lemma CleanUpKeepsSound(s: State, n: nat, s': State)
    requires Sound(s) && Enabled(s, CleanUp(n)) && Closed(s) && s' == Step(s, CleanUp(n))
    ensures Sound(s')
  {
    var phase := Cleaned(s.requests[n].phase.outcome);
    var s1, key := SetPhase(s, n, phase), s.requests[n].key;
    SameOutcomeKeepsSound(s, n, phase, s1);
    SoundIsClosed(s1);
    if key in s1.offers && s1.requests[s1.offers[key].request].phase.Waiting? {
      var m := s1.offers[key].request;
      assert s1.requests[m].key == s1.requests[n].key;
    }
    RemoveKeepsSound(s1, key, s');
  }

  /** The last part of a confirm call: only its own stage changes. */
  lemma SucceedKeepsSound(s: State, c: nat, s': State)
    requires Sound(s) && c < |s.confirms| && s.confirms[c].stage.Sent?
    requires s' == s.(confirms := s.confirms[c := s.confirms[c].(stage := Succeeded(s.confirms[c].stage.request))])
    ensures Sound(s')
  {
    assert s.confirms[c] in s.confirms;
    assert forall d <- s'.confirms :: d in s.confirms || d == s'.confirms[c];
    assert TakenBy(s'.confirms[c]) == TakenBy(s.confirms[c]);
    forall d <- s'.confirms ensures CallSound(s', d) {
      assert CallSound(s, if d in s.confirms then d else s.confirms[c]);
    }
    forall m | 0 <= m < |s'.requests| ensures RequestSound(s', m) {
      UntouchedStaysSound(s, s', m);
    }
  }

  lemma ForgetKeepsSound(s: State, c: nat, s': State)
    requires Sound(s) && Enabled(s, Forget(c)) && Closed(s) && s' == Step(s, Forget(c))
    ensures Sound(s')
  {
    var call := s.confirms[c];
    assert call in s.confirms && CallSound(s, call);
    var s1 := Remove(s, call.key);
    if call.key in s.offers && s.offers[call.key].sender {
      var n := s.offers[call.key].request;
      assert TakenBy(call) != Some(n);
      assert s.requests[call.stage.request].key == s.requests[n].key;
    }
    RemoveKeepsSound(s, call.key, s1);
    SucceedKeepsSound(s1, c, s');
  }

  /** A new request, before anything is put in the table. */
  lemma NewRequestKeepsSound(s: State, r: Request, s': State)
    requires Sound(s) && s' == s.(requests := s.requests + [r]) && Unused(r)
    requires r.phase.Waiting? || (r.phase.Answered? && r.phase.outcome in {AutoAccepted, DiskFull, ConsentRequired})
    ensures Sound(s')
  {
    forall m | 0 <= m < |s'.requests| ensures RequestSound(s', m) {
      if m < |s.requests| {
        UntouchedStaysSound(s, s', m);
      }
    }
    forall c <- s'.confirms ensures CallSound(s', c) {
      assert CallSound(s, c);
    }
  }

  lemma NewOfferKeepsSound(s: State, n: nat, expires: nat, s': State)
    requires Sound(s) && n < |s.requests| && Unused(s.requests[n]) && Asked(s.requests[n])
    requires forall c <- s.confirms :: TakenBy(c) != Some(n)
    requires s' == s.(offers := s.offers[s.requests[n].key := Offer(n, true, expires)])
    ensures Sound(s')
  {
    forall m | 0 <= m < |s'.requests| ensures RequestSound(s', m) {
      UntouchedStaysSound(s, s', m);
    }
    forall c <- s'.confirms ensures CallSound(s', c) {
      assert CallSound(s, c);
    }
  }

  lemma ArriveKeepsSound(s: State, key: Key, autoAccept: bool, space: bool, watched: bool, s': State)
    requires Sound(s) && Closed(s) && s' == Arrival(s, key, autoAccept, space, watched)
    ensures Sound(s')
  {
    var r := Request(key, s.now + OFFER_SECONDS, Waiting, None, 0, false, false);
    if autoAccept || !space || !watched {
      NewRequestKeepsSound(s, s'.requests[|s.requests|], s');
    } else {
      var n := |s.requests|;
      var s1 := s.(requests := s.requests + [r]);
      NewRequestKeepsSound(s, r, s1);
      SoundIsClosed(s1);
      var s2 := Remove(s1, key);
      if key in s1.offers {
        var m := s1.offers[key].request;
        assert s1.requests[m].key == s1.requests[n].key && m != n;
      }
      RemoveKeepsSound(s1, key, s2);
      forall c <- s2.confirms ensures TakenBy(c) != Some(n) {
        assert CallSound(s, c);
      }
      assert s2.requests == Remove(s, key).requests + [r];
      NewOfferKeepsSound(s2, n, s.now + OFFER_SECONDS, s');
    }
  }

  lemma TakeKeepsSound(s: State, key: Key, accepted: bool, s': State)
    requires Sound(s) && Closed(s) && s' == Step(s, Take(key, accepted))
    ensures Sound(s')
  {
    var call := s'.confirms[|s.confirms|];
    assert forall d <- s'.confirms :: d in s.confirms || d == call;
    forall d <- s'.confirms ensures CallSound(s', d) {
      if d in s.confirms {
        assert CallSound(s, d);
      }
    }
    forall m | 0 <= m < |s'.requests| ensures RequestSound(s', m) {
      UntouchedStaysSound(s, s', m);
    }
    forall k <- s'.offers | s'.offers[k].sender ensures TakenBy(call) != Some(s'.offers[k].request) {
      assert s.requests[s.offers[k].request].key == k;
    }
  }

  lemma SendKeepsSound(s: State, c: nat, s': State)
    requires Sound(s) && Enabled(s, Send(c)) && Closed(s) && s' == Step(s, Send(c))
    ensures Sound(s')
  {
    var call, call' := s.confirms[c], s'.confirms[c];
    assert call in s.confirms && CallSound(s, call);
    var n := call.stage.request;
    forall i | 0 <= i < |s'.confirms| ensures CallSound(s', s'.confirms[i]) {
      assert s.confirms[i] in s.confirms && CallSound(s, s.confirms[i]);
      if i != c {
        assert TakenBy(s.confirms[i]) != Some(n);
      }
    }
    assert RequestSound(s, n);
    UntouchedFacts(s, s', n);
    assert call' in s'.confirms && TakenBy(call') == Some(n) && !call'.stage.Took?;
    assert Confirmed(s', n, call.accepted);
    forall m | 0 <= m < |s'.requests| ensures RequestSound(s', m) {
      if m != n {
        UntouchedStaysSound(s, s', m);
      }
    }
    assert forall d <- s'.confirms :: d in s.confirms || d == call';
    forall k <- s'.offers | s'.offers[k].sender ensures s'.offers[k].request != n {
      assert TakenBy(call) != Some(s.offers[k].request);
    }
  }

  lemma ExpireKeepsSound(s: State, key: Key, s': State)
    requires Sound(s) && Enabled(s, Expire(key)) && Closed(s) && s' == Step(s, Expire(key))
    ensures Sound(s')
  {
    var n := s.offers[key].request;
    assert RequestSound(s, n);
    UntouchedFacts(s, s', n);
    forall m | 0 <= m < |s'.requests| ensures RequestSound(s', m) {
      if m != n {
        UntouchedStaysSound(s, s', m);
      }
    }
    forall c <- s'.confirms ensures CallSound(s', c) {
      assert CallSound(s, c);
    }
  }

  lemma PassKeepsSound(s: State, seconds: nat, s': State)
    requires Sound(s) && s' == s.(now := s.now + seconds)
    ensures Sound(s')
  {
    forall m | 0 <= m < |s'.requests| ensures RequestSound(s', m) {
      UntouchedStaysSound(s, s', m);
    }
    forall c <- s'.confirms ensures CallSound(s', c) {
      assert CallSound(s, c);
    }
  }

  lemma StepKeepsSound(s: State, e: Event, s': State)
    requires Sound(s) && Closed(s) && Enabled(s, e) && s' == Step(s, e)
    ensures Sound(s') && Closed(s')
  {
    match e {
      case Arrive(key, a, b, c) => ArriveKeepsSound(s, key, a, b, c, s');
      case Wake(n) => WakeKeepsSound(s, n, s');
      case TimeOut(n) => TimeOutKeepsSound(s, n, s');
      case CleanUp(n) => CleanUpKeepsSound(s, n, s');
      case Answer(n) => SameOutcomeKeepsSound(s, n, Answered(s.requests[n].phase.outcome), s');
      case Take(key, accepted) => TakeKeepsSound(s, key, accepted, s');
      case Send(c) => SendKeepsSound(s, c, s');
      case Forget(c) => ForgetKeepsSound(s, c, s');
      case Expire(key) => ExpireKeepsSound(s, key, s');
      case Pass(seconds) => PassKeepsSound(s, seconds, s');
    }
    SoundIsClosed(s');
  }

  // ----- Whole runs -----

  /** The state after a run, if every step of it was possible. */
  function Execute(s: State, es: seq<Event>): Option<State> {
    if es == [] then Some(s)
    else match Execute(s, es[..|es| - 1])
      case None => None
      case Some(s1) =>
        if Closed(s1) && Enabled(s1, es[|es| - 1]) then Some(Step(s1, es[|es| - 1])) else None
  }

  lemma {:induction false} RunsAreSound(s: State, es: seq<Event>)
    requires Sound(s) && Execute(s, es).Some?
    ensures Sound(Execute(s, es).value) && Closed(Execute(s, es).value)
  {
    if es == [] {
      SoundIsClosed(s);
    } else {
      RunsAreSound(s, es[..|es| - 1]);
      var s1 := Execute(s, es[..|es| - 1]).value;
      StepKeepsSound(s1, es[|es| - 1], Step(s1, es[|es| - 1]));
    }
  }

  /** What a step never changes: a delivered value and a request's outcome. */
  predicate Kept(r: Request, r': Request) {
    && (r.value.Some? ==> r'.value == r.value)
    && (!r.phase.Waiting? ==> !r'.phase.Waiting? && r'.phase.outcome == r.phase.outcome)
  }

  lemma StepKeeps(s: State, e: Event, n: nat)
    requires Sound(s) && Closed(s) && Enabled(s, e) && n < |s.requests|
    ensures n < |Step(s, e).requests| && Kept(s.requests[n], Step(s, e).requests[n])
  {
    if e.Send? {
      assert CallSound(s, s.confirms[e.confirm]);
    }
  }

  lemma {:induction false} RunKeeps(s: State, es: seq<Event>, n: nat)
    requires Sound(s) && Execute(s, es).Some? && n < |s.requests|
    ensures n < |Execute(s, es).value.requests| && Kept(s.requests[n], Execute(s, es).value.requests[n])
  {
    if es != [] {
      RunKeeps(s, es[..|es| - 1], n);
      RunsAreSound(s, es[..|es| - 1]);
      StepKeeps(Execute(s, es[..|es| - 1]).value, es[|es| - 1], n);
    }
  }

  /**
    * A confirm call that took a sender decides the request exactly when it sends before the request's own time-out; the
    * caller is told of success either way.
    */
  lemma ConfirmDecidesInTime(before: seq<Event>, s: State, c: nat, after: seq<Event>, t: State)
    requires Execute(INITIAL, before) == Some(s) && Closed(s) && Enabled(s, Send(c))
    requires Execute(Step(s, Send(c)), after) == Some(t)
    ensures var n := s.confirms[c].stage.request;
            n < |s.requests| && n < |t.requests|
            && (t.requests[n].phase.Waiting? || t.requests[n].phase.outcome ==
                  if !s.requests[n].phase.Waiting? then TimedOut
                  else if s.confirms[c].accepted then Accepted else Declined)
  {
    assert Sound(INITIAL);
    RunsAreSound(INITIAL, before);
    var call, s1 := s.confirms[c], Step(s, Send(c));
    assert call in s.confirms && CallSound(s, call);
    var n := call.stage.request;
    assert RequestSound(s, n);
    StepKeepsSound(s, Send(c), s1);
    RunKeeps(s1, after, n);
    RunsAreSound(s1, after);
    assert RequestSound(t, n);
    assert n < |t.requests|;
  }

  /** A run grows by one step, whose result is given field by field. */
  lemma OneMore(es: seq<Event>, s: State, e: Event, t: State)
    requires Execute(INITIAL, es) == Some(s) && Closed(s) && Enabled(s, e)
    requires var s' := Step(s, e);
             s'.now == t.now && s'.offers == t.offers && s'.requests == t.requests && s'.confirms == t.confirms
    ensures Execute(INITIAL, es + [e]) == Some(t)
  {
    assert (es + [e])[..|es|] == es;
  }

  const ANY_REQUEST := Request([], 120, Waiting, None, 0, false, false)

  /** An offer made at time zero, and a confirm call that said yes to it after `t` seconds. */
  function Taken(k: Key, t: nat): State {
    State(t, map[k := Offer(0, false, 120)], [ANY_REQUEST.(key := k)], [Confirm(k, true, Took(0))])
  }

  lemma TakenIsReached(k: Key, t: nat) returns (es: seq<Event>)
    ensures Execute(INITIAL, es) == Some(Taken(k, t))
  {
    var r := ANY_REQUEST.(key := k);
    var s1 := State(0, map[k := Offer(0, true, 120)], [r], []);
    OneMore([], INITIAL, Arrive(k, false, true, true), s1);
    es := [] + [Arrive(k, false, true, true)];
    OneMore(es, s1, Pass(t), s1.(now := t));
    OneMore(es + [Pass(t)], s1.(now := t), Take(k, true), Taken(k, t));
    es := es + [Pass(t)] + [Take(k, true)];
  }

  /** A confirm call can report success for an offer that had already timed out. */
  lemma SuccessIsNotAcceptance(k: Key)
    ensures exists es, s :: Execute(INITIAL, es) == Some(s) && |s.requests| == |s.confirms| == 1
              && s.confirms[0] == Confirm(k, true, Succeeded(0)) && s.requests[0].phase == Woken(TimedOut)
  {
    var es := TakenIsReached(k, 120);
    var r := ANY_REQUEST.(key := k, phase := Woken(TimedOut));
    var s1 := Taken(k, 120).(requests := [r]);
    OneMore(es, Taken(k, 120), TimeOut(0), s1);
    var s2 := s1.(requests := [r.(sent := 1)], confirms := [Confirm(k, true, Sent(0))]);
    OneMore(es + [TimeOut(0)], s1, Send(0), s2);
    var s3 := s2.(offers := map[], confirms := [Confirm(k, true, Succeeded(0))]);
    OneMore(es + [TimeOut(0)] + [Send(0)], s2, Forget(0), s3);
  }

  /** A second offer under a transfer id whose confirm call has not finished. */
  function Reused(k: Key): State {
    var r := ANY_REQUEST.(key := k);
    State(0, map[k := Offer(1, true, 120)], [r.(sent := 1, value := Some(true)), r], [Confirm(k, true, Sent(0))])
  }

  lemma ReusedIsReached(k: Key) returns (es: seq<Event>)
    ensures Execute(INITIAL, es) == Some(Reused(k))
  {
    es := TakenIsReached(k, 0);
    var r := ANY_REQUEST.(key := k);
    var s1 := Taken(k, 0).(requests := [r.(sent := 1, value := Some(true))], confirms := [Confirm(k, true, Sent(0))]);
    OneMore(es, Taken(k, 0), Send(0), s1);
    OneMore(es + [Send(0)], s1, Arrive(k, false, true, true), Reused(k));
    es := es + [Send(0)] + [Arrive(k, false, true, true)];
  }

  // ----- When a channel breaks -----

  /** The step removes or replaces whatever entry the key has. */
  predicate Discards(s: State, e: Event, key: Key)
    requires Enabled(s, e)
  {
    match e
    case Arrive(k, autoAccept, space, watched) => k == key && !autoAccept && space && watched
    case CleanUp(m) => s.requests[m].key == key
    case Forget(c) => s.confirms[c].key == key
    case _ => false
  }

  /**
    * Exactly when a step breaks a channel: the entry under the request's key is its own and still holds the sender, and
    * the step discards the entry of that key.
    */
  lemma ChannelBreaksIff(s: State, e: Event, n: nat)
    requires Sound(s) && Closed(s) && Enabled(s, e) && n < |s.requests| && !s.requests[n].dropped
    ensures var key := s.requests[n].key;
            Step(s, e).requests[n].dropped
            <==> key in s.offers && s.offers[key].request == n && s.offers[key].sender && Discards(s, e, key)
  {
  }

  /** The number of requests under a key. */
  function Under(requests: seq<Request>, k: Key): nat {
    if requests == [] then 0 else Under(requests[..|requests| - 1], k) + if requests[|requests| - 1].key == k then 1 else 0
  }

  lemma {:induction false} OneUnder(requests: seq<Request>, i: nat, k: Key)
    requires i < |requests| && requests[i].key == k
    ensures Under(requests, k) >= 1
  {
    if i < |requests| - 1 {
      OneUnder(requests[..|requests| - 1], i, k);
    }
  }

  lemma {:induction false} TwoUnder(requests: seq<Request>, i: nat, j: nat, k: Key)
    requires i < j < |requests| && requests[i].key == requests[j].key == k
    ensures Under(requests, k) >= 2
  {
    if j == |requests| - 1 {
      OneUnder(requests[..j], i, k);
    } else {
      TwoUnder(requests[..|requests| - 1], i, j, k);
    }
  }

  predicate LostUnder(s: State, k: Key) {
    exists n :: 0 <= n < |s.requests| && s.requests[n].key == k
                && !s.requests[n].phase.Waiting? && s.requests[n].phase.outcome == ConnectionLost
  }

  /** No request under the key loses its channel in any run with at most `m` requests under it. */
  ghost predicate NeverLost(k: Key, m: nat) {
    forall es, s | Execute(INITIAL, es) == Some(s) && Under(s.requests, k) <= m :: !LostUnder(s, k)
  }

  lemma LostMeansTwo(es: seq<Event>, s: State, k: Key)
    requires Execute(INITIAL, es) == Some(s) && LostUnder(s, k)
    ensures Under(s.requests, k) >= 2
  {
    assert Sound(INITIAL);
    RunsAreSound(INITIAL, es);
    var n :| 0 <= n < |s.requests| && s.requests[n].key == k
             && !s.requests[n].phase.Waiting? && s.requests[n].phase.outcome == ConnectionLost;
    assert RequestSound(s, n);
    var m :| 0 <= m < |s.requests| && m != n && s.requests[m].key == s.requests[n].key;
    TwoUnder(s.requests, if m < n then m else n, if m < n then n else m, k);
  }

  /** When a transfer id is used again, the tail of an earlier confirm call can break the newer offer's channel. */
  lemma NewerOfferCanBeLost(k: Key) returns (es: seq<Event>, s: State)
    ensures Execute(INITIAL, es) == Some(s) && |s.requests| == 2 && |s.confirms| == 1
    ensures TakenBy(s.confirms[0]) == Some(0) && s.requests[1].key == k && s.requests[1].phase == Woken(ConnectionLost)
  {
    es := ReusedIsReached(k);
    var r0, r1 := Reused(k).requests[0], Reused(k).requests[1].(dropped := true);
    var s1 := State(0, map[], [r0, r1], [Confirm(k, true, Succeeded(0))]);
    OneMore(es, Reused(k), Forget(0), s1);
    s := s1.(requests := [r0, r1.(phase := Woken(ConnectionLost))]);
    OneMore(es + [Forget(0)], s1, Wake(1), s);
    es := es + [Forget(0)] + [Wake(1)];
  }

  lemma {:induction false} UnderAtMost(requests: seq<Request>, k: Key)
    ensures Under(requests, k) <= |requests|
  {
    if requests != [] {
      UnderAtMost(requests[..|requests| - 1], k);
    }
  }

  /** Channels never break exactly if a transfer id is used at most once. */
  lemma NeverLostIff(k: Key, m: nat)
    ensures NeverLost(k, m) <==> m <= 1
  {
    if m <= 1 {
      forall es, s | Execute(INITIAL, es) == Some(s) && Under(s.requests, k) <= m ensures !LostUnder(s, k) {
        if LostUnder(s, k) {
          LostMeansTwo(es, s, k);
        }
      }
    } else {
      var es, s := NewerOfferCanBeLost(k);
      UnderAtMost(s.requests, k);
      assert LostUnder(s, k);
    }
  }
}
