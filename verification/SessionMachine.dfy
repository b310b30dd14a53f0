/** The session state machine and what holds of its whole runs. */
module SessionMachine {
  import opened Bytes
  import opened Results

  datatype SessionState = Disconnected | Connecting | HelloWait | Established | Pairing | Active | Closing | Closed

  datatype Timer = TlsHandshake | HelloExchange | PairingSas | CloseGrace | KeepaliveTimeout

  datatype Event =
    | UserConnect | TlsEstablished | TlsFailed
    | HelloReceived(deviceId: Digest, isPaired: bool)
    | HelloAckReceived(deviceId: Digest, sessionId: U32, isPaired: bool)
    | IncompatibleVersion | PairRequestSent | PairAcceptReceived | PairRejectReceived
    | UnpairedSessionAccepted | MutuallyPaired | SessionCloseSent | SessionCloseReceived
    | ConnectionLost | FatalErrorReceived | TimerFired(timer: Timer)

  datatype Action =
    | OpenConnection | SendHello | SendHelloAck(sessionId: U32) | RecordSessionId(sessionId: U32)
    | DisplaySas | PinPeerIdentity(deviceId: Digest) | SendError(code: string) | SendSessionClose | CloseConnection
    | ReleaseResources | StartTimer(timer: Timer) | CancelTimer(timer: Timer) | Log

  /** The identity in the pinning action is filled in by the caller; the machine itself emits zeros. */
  function Placeholder(): Digest {
    BigEndian(0, 32)
  }

  datatype InvalidTransition = InvalidTransition(from: SessionState, event: Event)

  function HandleEvent(s: SessionState, e: Event): Result<(SessionState, seq<Action>), InvalidTransition> {
    match (s, e)
    case (Disconnected, UserConnect) => Ok((Connecting, [OpenConnection, StartTimer(TlsHandshake)]))
    case (Connecting, TlsEstablished) =>
      Ok((HelloWait, [CancelTimer(TlsHandshake), SendHello, StartTimer(HelloExchange)]))
    case (Connecting, TlsFailed) => Ok((Closed, [CancelTimer(TlsHandshake), Log, ReleaseResources]))
    case (Connecting, TimerFired(TlsHandshake)) => Ok((Closed, [CancelTimer(TlsHandshake), Log, ReleaseResources]))
    case (HelloWait, HelloReceived(_, _)) => Ok((Established, [CancelTimer(HelloExchange), SendHelloAck(0)]))
    case (HelloWait, HelloAckReceived(_, sessionId, _)) =>
      Ok((Established, [CancelTimer(HelloExchange), RecordSessionId(sessionId)]))
    case (HelloWait, TimerFired(HelloExchange)) => Ok((Closed, [Log, ReleaseResources]))
    case (HelloWait, IncompatibleVersion) => Ok((Closed, [SendError("unsupported_version"), ReleaseResources]))
    case (Established, PairRequestSent) => Ok((Pairing, [DisplaySas, StartTimer(PairingSas)]))
    case (Established, MutuallyPaired) => Ok((Active, []))
    case (Established, UnpairedSessionAccepted) => Ok((Active, []))
    case (Pairing, PairAcceptReceived) => Ok((Active, [CancelTimer(PairingSas), PinPeerIdentity(Placeholder())]))
    case (Pairing, PairRejectReceived) => Ok((Established, [CancelTimer(PairingSas), Log]))
    case (Pairing, TimerFired(PairingSas)) => Ok((Closed, [Log, CloseConnection, ReleaseResources]))
    case (Active, SessionCloseSent) => Ok((Closing, [SendSessionClose, StartTimer(CloseGrace)]))
    case (Active, ConnectionLost) => Ok((Closed, [Log, ReleaseResources]))
    case (Active, FatalErrorReceived) => Ok((Closed, [Log, ReleaseResources]))
    case (Closing, SessionCloseReceived) =>
      Ok((Closed, [CancelTimer(CloseGrace), CloseConnection, ReleaseResources]))
    case (Closing, TimerFired(CloseGrace)) =>
      Ok((Closed, [CancelTimer(CloseGrace), CloseConnection, ReleaseResources]))
    case (Active, TimerFired(KeepaliveTimeout)) =>
      Ok((Closed, [SendError("session_timeout"), CloseConnection, ReleaseResources]))
    case _ =>
      if e.FatalErrorReceived? && !s.Closed? && !s.Disconnected? then
        Ok((Closed, [SendError("internal_error"), CloseConnection, ReleaseResources]))
      else if e.ConnectionLost? && !s.Closed? && !s.Disconnected? then Ok((Closed, [ReleaseResources]))
      else Err(InvalidTransition(s, e))
  }

  // ----- Runs -----

  /** A run so far: the state, the timers still running, the actions performed and the last transition. */
  datatype Run = Run(state: SessionState, armed: set<Timer>, emitted: seq<Action>, last: Option<(SessionState, Event)>)

  function PerformOne(armed: set<Timer>, a: Action): set<Timer> {
    match a
    case StartTimer(t) => armed + {t}
    case CancelTimer(t) => armed - {t}
    case _ => armed
  }

  function Perform(armed: set<Timer>, actions: seq<Action>): set<Timer>
    decreases actions
  {
    if actions == [] then armed else Perform(PerformOne(armed, actions[0]), actions[1..])
  }

  lemma PerformSteps(armed: set<Timer>, actions: seq<Action>)
    requires |actions| <= 3
    ensures var a1 := if |actions| > 0 then PerformOne(armed, actions[0]) else armed;
            var a2 := if |actions| > 1 then PerformOne(a1, actions[1]) else a1;
            Perform(armed, actions) == if |actions| > 2 then PerformOne(a2, actions[2]) else a2
    decreases |actions|
  {
    if |actions| > 0 {
      PerformSteps(PerformOne(armed, actions[0]), actions[1..]);
    }
  }

  /** A timer that fires is no longer running; an event that the machine refuses changes nothing. */
  function Step(r: Run, e: Event): Run {
    match HandleEvent(r.state, e)
    case Err(_) => r
    case Ok((state, actions)) =>
      var armed := if e.TimerFired? then r.armed - {e.timer} else r.armed;
      Run(state, Perform(armed, actions), r.emitted + actions, Some((r.state, e)))
  }

  function Execute(es: seq<Event>): Run {
    if es == [] then Run(Disconnected, {}, [], None) else Step(Execute(es[..|es| - 1]), es[|es| - 1])
  }

  /** The timers that a state owns; the keepalive timer is never started here. */
  function Owned(s: SessionState): set<Timer> {
    match s
    case Connecting => {TlsHandshake}
    case HelloWait => {HelloExchange}
    case Pairing => {PairingSas}
    case Closing => {CloseGrace}
    case _ => {}
  }

  // ----- Timers -----

  /** An end that the machine may reach without cancelling the running timer. */
  predicate Abrupt(e: Event) {
    e.IncompatibleVersion? || e.FatalErrorReceived? || e.ConnectionLost?
  }

  predicate TimersKept(r: Run) {
    && (!r.state.Closed? ==> r.armed == Owned(r.state))
    && (r.state.Closed? ==>
          r.last.Some? && r.armed == if Abrupt(r.last.value.1) then Owned(r.last.value.0) else {})
  }

  /** Each transition hands the timers of its state over to those of the next; only an abrupt end drops them. */
  predicate HandedOver(s: SessionState, e: Event) {
    match HandleEvent(s, e)
    case Err(_) => true
    case Ok((next, actions)) =>
      Perform(if e.TimerFired? then Owned(s) - {e.timer} else Owned(s), actions)
      == (if next.Closed? && Abrupt(e) then Owned(s) else Owned(next))
  }

  lemma OpeningHandsOver(s: SessionState, e: Event)
    requires s.Disconnected? || s.Connecting? || s.HelloWait?
    ensures HandedOver(s, e)
  {
    if HandleEvent(s, e).Ok? {
      PerformSteps(if e.TimerFired? then Owned(s) - {e.timer} else Owned(s), HandleEvent(s, e).value.1);
    }
  }

  lemma EstablishedHandsOver(s: SessionState, e: Event)
    requires s.Established?
    ensures HandedOver(s, e)
  {
    if HandleEvent(s, e).Ok? {
      PerformSteps(Owned(s), HandleEvent(s, e).value.1);
    }
  }

  lemma PairingHandsOver(s: SessionState, e: Event)
    requires s.Pairing?
    ensures HandedOver(s, e)
  {
    if HandleEvent(s, e).Ok? {
      PerformSteps(if e.TimerFired? then Owned(s) - {e.timer} else Owned(s), HandleEvent(s, e).value.1);
    }
  }

  lemma ActiveHandsOver(s: SessionState, e: Event)
    requires s.Active?
    ensures HandedOver(s, e)
  {
    if HandleEvent(s, e).Ok? {
      PerformSteps(if e.TimerFired? then Owned(s) - {e.timer} else Owned(s), HandleEvent(s, e).value.1);
    }
  }

  lemma ClosingHandsOver(s: SessionState, e: Event)
    requires s.Closing?
    ensures HandedOver(s, e)
  {
    if HandleEvent(s, e).Ok? {
      PerformSteps(if e.TimerFired? then Owned(s) - {e.timer} else Owned(s), HandleEvent(s, e).value.1);
    }
  }

  lemma EachHandsOver(s: SessionState, e: Event)
    ensures HandedOver(s, e) && (s.Closed? ==> HandleEvent(s, e).Err?)
  {
    match s {
      case Established => EstablishedHandsOver(s, e);
      case Pairing => PairingHandsOver(s, e);
      case Active => ActiveHandsOver(s, e);
      case Closing => ClosingHandsOver(s, e);
      case Closed =>
      case _ => OpeningHandsOver(s, e);
    }
  }

  lemma NextKeepsTimers(r: Run, e: Event, next: SessionState, actions: seq<Action>, r': Run)
    requires TimersKept(r) && !r.state.Closed? && HandedOver(r.state, e) && HandleEvent(r.state, e) == Ok((next, actions))
    requires r'.state == next && r'.last == Some((r.state, e))
    requires r'.armed == Perform(if e.TimerFired? then r.armed - {e.timer} else r.armed, actions)
    ensures TimersKept(r')
  {
  }

  lemma StepKeepsTimers(r: Run, e: Event)
    requires TimersKept(r)
    ensures TimersKept(Step(r, e))
  {
    EachHandsOver(r.state, e);
    if HandleEvent(r.state, e).Ok? {
      var (next, actions) := HandleEvent(r.state, e).value;
      NextKeepsTimers(r, e, next, actions, Step(r, e));
    }
  }

  // ----- Resources and identities -----

  function Count(actions: seq<Action>, a: Action): nat {
    if actions == [] then 0 else Count(actions[1..], a) + if actions[0] == a then 1 else 0
  }

  lemma {:induction false} CountAppend(xs: seq<Action>, ys: seq<Action>, a: Action)
    ensures Count(xs + ys, a) == Count(xs, a) + Count(ys, a)
  {
    if xs == [] {
      assert xs + ys == ys;
    } else {
      assert (xs + ys)[1..] == xs[1..] + ys;
      CountAppend(xs[1..], ys, a);
    }
  }

  lemma CountSteps(actions: seq<Action>, a: Action)
    requires |actions| <= 3
    ensures Count(actions, a) == (if |actions| > 0 && actions[0] == a then 1 else 0)
                               + (if |actions| > 1 && actions[1] == a then 1 else 0)
                               + (if |actions| > 2 && actions[2] == a then 1 else 0)
    decreases |actions|
  {
    if |actions| > 0 {
      CountSteps(actions[1..], a);
    }
  }

  /** Resources are released on entering Closed, and only there. */
  lemma ReleasedOnClosing(s: SessionState, e: Event)
    requires HandleEvent(s, e).Ok?
    ensures !s.Closed?
    ensures Count(HandleEvent(s, e).value.1, ReleaseResources) == if HandleEvent(s, e).value.0.Closed? then 1 else 0
  {
    CountSteps(HandleEvent(s, e).value.1, ReleaseResources);
  }

  predicate ReleasedOnce(r: Run) {
    Count(r.emitted, ReleaseResources) == if r.state.Closed? then 1 else 0
  }

  lemma StepReleasesOnce(r: Run, e: Event)
    requires ReleasedOnce(r)
    ensures ReleasedOnce(Step(r, e))
  {
    if HandleEvent(r.state, e).Ok? {
      ReleasedOnClosing(r.state, e);
      CountAppend(r.emitted, HandleEvent(r.state, e).value.1, ReleaseResources);
    }
  }

  predicate Paired(s: SessionState) {
    s.Active? || s.Closing? || s.Closed?
  }

  /** An identity is pinned at most once, and a code was displayed before. */
  predicate PinnedAfterSas(r: Run) {
    && Count(r.emitted, PinPeerIdentity(Placeholder())) <= 1
    && (!Paired(r.state) ==> Count(r.emitted, PinPeerIdentity(Placeholder())) == 0)
    && (r.state.Pairing? ==> DisplaySas in r.emitted)
    && (forall i :: 0 <= i < |r.emitted| && r.emitted[i].PinPeerIdentity? ==>
          r.emitted[i] == PinPeerIdentity(Placeholder()) && DisplaySas in r.emitted[..i])
  }

  predicate NoPin(actions: seq<Action>) {
    forall i :: 0 <= i < |actions| ==> !actions[i].PinPeerIdentity?
  }

  /** Pinning happens on one transition only. */
  lemma PinnedOnAccept(s: SessionState, e: Event, next: SessionState, actions: seq<Action>)
    requires HandleEvent(s, e) == Ok((next, actions))
    ensures NoPin(actions)
            || (s.Pairing? && next.Active? && actions == [CancelTimer(PairingSas), PinPeerIdentity(Placeholder())])
    ensures Paired(s) ==> Paired(next)
    ensures next.Pairing? ==> |actions| > 0 && actions[0] == DisplaySas
  {
  }

  lemma {:induction false} NoPinCount(actions: seq<Action>)
    requires NoPin(actions)
    ensures Count(actions, PinPeerIdentity(Placeholder())) == 0
  {
    if actions != [] {
      NoPinCount(actions[1..]);
    }
  }

  lemma StepPinsAfterSas(r: Run, e: Event)
    requires PinnedAfterSas(r)
    ensures PinnedAfterSas(Step(r, e))
  {
    if HandleEvent(r.state, e).Ok? {
      var actions, r' := HandleEvent(r.state, e).value.1, Step(r, e);
      PinnedOnAccept(r.state, e, r'.state, actions);
      if NoPin(actions) {
        NoPinCount(actions);
      } else {
        CountSteps(actions, PinPeerIdentity(Placeholder()));
      }
      CountAppend(r.emitted, actions, PinPeerIdentity(Placeholder()));
      assert r'.state.Pairing? ==> r'.emitted[|r.emitted|] == DisplaySas;
      forall i | 0 <= i < |r'.emitted| && r'.emitted[i].PinPeerIdentity?
        ensures r'.emitted[i] == PinPeerIdentity(Placeholder()) && DisplaySas in r'.emitted[..i]
      {
        if i < |r.emitted| {
          assert r'.emitted[..i] == r.emitted[..i];
        } else {
          assert r'.emitted[i] == actions[i - |r.emitted|];
          assert r'.emitted[..i][..|r.emitted|] == r.emitted;
        }
      }
    }
  }

  /**
    * In every reachable state but Closed exactly the timers of that state run, and in Closed exactly those of a state
    * that was left abruptly. Resources are released exactly once if the run reaches Closed and otherwise never; an
    * identity is pinned at most once and only after a code was displayed.
    */
  lemma {:induction false} RunsAreDisciplined(es: seq<Event>)
    ensures TimersKept(Execute(es)) && ReleasedOnce(Execute(es)) && PinnedAfterSas(Execute(es))
  {
    if es != [] {
      var before, e := Execute(es[..|es| - 1]), es[|es| - 1];
      RunsAreDisciplined(es[..|es| - 1]);
      StepKeepsTimers(before, e);
      StepReleasesOnce(before, e);
      StepPinsAfterSas(before, e);
    }
  }

  // ----- What each event does -----

  /** The states in which an event is accepted. */
  function AcceptedIn(e: Event): set<SessionState> {
    match e
    case UserConnect => {Disconnected}
    case TlsEstablished => {Connecting}
    case TlsFailed => {Connecting}
    case HelloReceived(_, _) => {HelloWait}
    case HelloAckReceived(_, _, _) => {HelloWait}
    case IncompatibleVersion => {HelloWait}
    case PairRequestSent => {Established}
    case MutuallyPaired => {Established}
    case UnpairedSessionAccepted => {Established}
    case PairAcceptReceived => {Pairing}
    case PairRejectReceived => {Pairing}
    case SessionCloseSent => {Active}
    case SessionCloseReceived => {Closing}
    case ConnectionLost => {Connecting, HelloWait, Established, Pairing, Active, Closing}
    case FatalErrorReceived => {Connecting, HelloWait, Established, Pairing, Active, Closing}
    case TimerFired(TlsHandshake) => {Connecting}
    case TimerFired(HelloExchange) => {HelloWait}
    case TimerFired(PairingSas) => {Pairing}
    case TimerFired(CloseGrace) => {Closing}
    case TimerFired(KeepaliveTimeout) => {Active}
  }

  /** The state that an accepted event leads to, wherever it is accepted. */
  function LeadsTo(e: Event): SessionState {
    match e
    case UserConnect => Connecting
    case TlsEstablished => HelloWait
    case HelloReceived(_, _) => Established
    case HelloAckReceived(_, _, _) => Established
    case PairRejectReceived => Established
    case PairRequestSent => Pairing
    case MutuallyPaired => Active
    case UnpairedSessionAccepted => Active
    case PairAcceptReceived => Active
    case SessionCloseSent => Closing
    case _ => Closed
  }

  /** The events on which an action is taken, in the state `s`. */
  predicate TakenOn(s: SessionState, e: Event, a: Action) {
    match a
    case OpenConnection => e.UserConnect?
    case SendHello => e.TlsEstablished?
    case SendHelloAck(id) => e.HelloReceived? && id == 0
    case RecordSessionId(id) => e.HelloAckReceived? && id == e.sessionId
    case DisplaySas => e.PairRequestSent?
    case PinPeerIdentity(id) => e.PairAcceptReceived? && id == Placeholder()
    case SendError(code) =>
      || (code == "unsupported_version" && e.IncompatibleVersion?)
      || (code == "internal_error" && e.FatalErrorReceived? && !s.Active?)
      || (code == "session_timeout" && e == TimerFired(KeepaliveTimeout))
    case SendSessionClose => e.SessionCloseSent?
    case CloseConnection =>
      || e.SessionCloseReceived? || (e.FatalErrorReceived? && !s.Active?)
      || e == TimerFired(PairingSas) || e == TimerFired(CloseGrace) || e == TimerFired(KeepaliveTimeout)
    case ReleaseResources => LeadsTo(e).Closed?
    case StartTimer(t) => t in Owned(LeadsTo(e))
    case CancelTimer(t) =>
      t in Owned(s) && !Abrupt(e) && (e.TimerFired? ==> e.timer.TlsHandshake? || e.timer.CloseGrace?)
    case Log =>
      || e.TlsFailed? || e.PairRejectReceived? || (s.Active? && (e.ConnectionLost? || e.FatalErrorReceived?))
      || e == TimerFired(TlsHandshake) || e == TimerFired(HelloExchange) || e == TimerFired(PairingSas)
  }

  lemma AcceptedIff(s: SessionState, e: Event)
    ensures match HandleEvent(s, e)
            case Ok((next, _)) => s in AcceptedIn(e) && next == LeadsTo(e)
            case Err(error) => s !in AcceptedIn(e) && error == InvalidTransition(s, e)
  {
  }

  lemma OpeningActsAsTabled(s: SessionState, e: Event, a: Action)
    requires HandleEvent(s, e).Ok? && (s.Disconnected? || s.Connecting? || s.HelloWait?)
    ensures a in HandleEvent(s, e).value.1 <==> TakenOn(s, e, a)
  {
  }

  lemma MiddleActsAsTabled(s: SessionState, e: Event, a: Action)
    requires HandleEvent(s, e).Ok? && (s.Established? || s.Pairing?)
    ensures a in HandleEvent(s, e).value.1 <==> TakenOn(s, e, a)
  {
  }

  lemma ClosingActsAsTabled(s: SessionState, e: Event, a: Action)
    requires HandleEvent(s, e).Ok? && (s.Active? || s.Closing?)
    ensures a in HandleEvent(s, e).value.1 <==> TakenOn(s, e, a)
  {
  }

  /** Every transition takes exactly these actions. */
  lemma ActionsAreExact(s: SessionState, e: Event, a: Action)
    requires HandleEvent(s, e).Ok?
    ensures a in HandleEvent(s, e).value.1 <==> TakenOn(s, e, a)
  {
    AcceptedIff(s, e);
    if s.Disconnected? || s.Connecting? || s.HelloWait? {
      OpeningActsAsTabled(s, e, a);
    } else if s.Established? || s.Pairing? {
      MiddleActsAsTabled(s, e, a);
    } else if s.Active? || s.Closing? {
      ClosingActsAsTabled(s, e, a);
    }
  }

  /**
    * The last accepted event decides the state. In particular a session is Active exactly after mutual pairing, an
    * accepted unpaired session or an accepted pairing; a rejected pairing leads back to Established.
    */
  lemma {:induction false} LastEventDecides(es: seq<Event>)
    ensures var r := Execute(es);
            && r.state == (if r.last.None? then Disconnected else LeadsTo(r.last.value.1))
            && forall e :: HandleEvent(r.state, e).Ok? <==> r.state in AcceptedIn(e)
  {
    if es != [] {
      LastEventDecides(es[..|es| - 1]);
      AcceptedIff(Execute(es[..|es| - 1]).state, es[|es| - 1]);
    }
    forall e ensures HandleEvent(Execute(es).state, e).Ok? <==> Execute(es).state in AcceptedIn(e) {
      AcceptedIff(Execute(es).state, e);
    }
  }
}
