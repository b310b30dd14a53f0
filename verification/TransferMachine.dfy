/** The transfer state machine and what holds of its whole runs. */
module TransferMachine {
  import opened Results

  datatype TransferState =
    Idle | Offered | Pending | Negotiating | Streaming | Paused | Completing | Complete | Cancelled | Failed

  datatype Timer = Consent | Negotiation | ChunkAck | Pause | Completion

  datatype Event =
    | SendTransferRequest | ReceiveTransferRequest | UserAccept | UserReject
    | ReceiveTransferAccept | ReceiveTransferReject | AllMetadataAcked | AllFilesRejected
    | PauseReceived | ResumeReceived | LastChunkSent | AllChunksReceived | CancelReceived
    | TransferCompleteSent | AckSent | AckSuccess | AckPartialFailure | ChecksumMismatch | DiskFull
    | ConnectionLost | FatalError | TimerFired(timer: Timer)

  datatype Action =
    | DoSendTransferRequest | DisplayConsentUi | SendTransferAccept | SendTransferReject
    | BeginMetadataExchange | BeginChunkTransmission | StopChunkTransmission | ResumeChunkTransmission
    | SendTransferComplete | SendTransferAck | SendTransferCancel | SendError(code: string) | NotifyUser
    | CleanupPartialFiles | PreserveResumeState | StartTimer(timer: Timer) | CancelTimer(timer: Timer)

  datatype InvalidTransition = InvalidTransition(from: TransferState, event: Event)

  predicate IsTerminal(s: TransferState) {
    s.Complete? || s.Cancelled? || s.Failed?
  }

  predicate IsActive(s: TransferState) {
    s.Offered? || s.Pending? || s.Negotiating? || s.Streaming? || s.Paused? || s.Completing?
  }

  type Transition = Result<(TransferState, seq<Action>), InvalidTransition>

  function FromIdle(e: Event): Transition {
    match e
    case SendTransferRequest => Ok((Offered, [DoSendTransferRequest, StartTimer(Consent)]))
    case ReceiveTransferRequest => Ok((Pending, [DisplayConsentUi, StartTimer(Consent)]))
    case _ => Err(InvalidTransition(Idle, e))
  }

  function FromOffered(e: Event): Transition {
    match e
    case ReceiveTransferAccept =>
      Ok((Negotiating, [CancelTimer(Consent), BeginMetadataExchange, StartTimer(Negotiation)]))
    case ReceiveTransferReject => Ok((Cancelled, [CancelTimer(Consent), NotifyUser]))
    case TimerFired(Consent) => Ok((Failed, [NotifyUser]))
    case _ => Err(InvalidTransition(Offered, e))
  }

  function FromPending(e: Event): Transition {
    match e
    case UserAccept =>
      Ok((Negotiating,
          [CancelTimer(Consent), SendTransferAccept, BeginMetadataExchange, StartTimer(Negotiation)]))
    case UserReject => Ok((Cancelled, [CancelTimer(Consent), SendTransferReject, NotifyUser]))
    case TimerFired(Consent) => Ok((Failed, [SendTransferReject, NotifyUser]))
    case _ => Err(InvalidTransition(Pending, e))
  }

  function FromNegotiating(e: Event): Transition {
    match e
    case AllMetadataAcked =>
      Ok((Streaming, [CancelTimer(Negotiation), BeginChunkTransmission, StartTimer(ChunkAck)]))
    case AllFilesRejected => Ok((Failed, [CancelTimer(Negotiation), NotifyUser]))
    case TimerFired(Negotiation) => Ok((Failed, [NotifyUser]))
    case _ => Err(InvalidTransition(Negotiating, e))
  }

  function FromStreaming(e: Event): Transition {
    match e
    case PauseReceived => Ok((Paused, [CancelTimer(ChunkAck), StopChunkTransmission, StartTimer(Pause)]))
    case LastChunkSent => Ok((Completing, [CancelTimer(ChunkAck), SendTransferComplete, StartTimer(Completion)]))
    case AllChunksReceived => Ok((Completing, [CancelTimer(ChunkAck), SendTransferAck, StartTimer(Completion)]))
    case ChecksumMismatch =>
      Ok((Failed, [CancelTimer(ChunkAck), SendError("checksum_mismatch"), CleanupPartialFiles, PreserveResumeState]))
    case DiskFull => Ok((Failed, [CancelTimer(ChunkAck), SendError("disk_full"), PreserveResumeState]))
    case TimerFired(ChunkAck) => Ok((Failed, [NotifyUser, PreserveResumeState]))
    case _ => Err(InvalidTransition(Streaming, e))
  }

  function FromPaused(e: Event): Transition {
    match e
    case ResumeReceived => Ok((Streaming, [CancelTimer(Pause), ResumeChunkTransmission, StartTimer(ChunkAck)]))
    case TimerFired(Pause) => Ok((Failed, [SendTransferCancel, NotifyUser, PreserveResumeState]))
    case _ => Err(InvalidTransition(Paused, e))
  }

  function FromCompleting(e: Event): Transition {
    match e
    case AckSuccess => Ok((Complete, [CancelTimer(Completion), NotifyUser]))
    case AckSent => Ok((Complete, [CancelTimer(Completion), NotifyUser]))
    case AckPartialFailure => Ok((Failed, [CancelTimer(Completion), NotifyUser]))
    case ChecksumMismatch => Ok((Failed, [CancelTimer(Completion), SendError("checksum_mismatch"), NotifyUser]))
    case TimerFired(Completion) => Ok((Failed, [NotifyUser]))
    case _ => Err(InvalidTransition(Completing, e))
  }

  function HandleEvent(s: TransferState, e: Event): Transition {
    if IsTerminal(s) then Err(InvalidTransition(s, e))
    else if e == CancelReceived && IsActive(s) then
      Ok((Cancelled, [SendTransferCancel, CleanupPartialFiles, NotifyUser]))
    else if (e == FatalError || e == ConnectionLost) && IsActive(s) then
      Ok((Failed, [PreserveResumeState, NotifyUser]))
    else
      match s
      case Idle => FromIdle(e)
      case Offered => FromOffered(e)
      case Pending => FromPending(e)
      case Negotiating => FromNegotiating(e)
      case Streaming => FromStreaming(e)
      case Paused => FromPaused(e)
      case Completing => FromCompleting(e)
      case _ => Err(InvalidTransition(s, e))
  }

  // ----- Runs -----

  /** A run so far: the state, the timers still running, and the events that were accepted. */
  datatype Run = Run(state: TransferState, armed: set<Timer>, accepted: seq<Event>)

  function PerformOne(armed: set<Timer>, a: Action): set<Timer> {
    match a
    case StartTimer(t) => armed + {t}
    case CancelTimer(t) => armed - {t}
    case _ => armed
  }

  /** The timers running after the actions are performed in order. */
  function Perform(armed: set<Timer>, actions: seq<Action>): set<Timer>
    decreases actions
  {
    if actions == [] then armed else Perform(PerformOne(armed, actions[0]), actions[1..])
  }

  lemma PerformSteps(armed: set<Timer>, actions: seq<Action>)
    requires 1 <= |actions| <= 4
    ensures var a1 := PerformOne(armed, actions[0]);
            var a2 := if |actions| > 1 then PerformOne(a1, actions[1]) else a1;
            var a3 := if |actions| > 2 then PerformOne(a2, actions[2]) else a2;
            Perform(armed, actions) == if |actions| > 3 then PerformOne(a3, actions[3]) else a3
    decreases |actions|
  {
    if |actions| > 1 {
      PerformSteps(PerformOne(armed, actions[0]), actions[1..]);
    }
  }

  /** A timer that fires is no longer running; an event that the machine refuses changes nothing. */
  function Step(r: Run, e: Event): Run {
    match HandleEvent(r.state, e)
    case Err(_) => r
    case Ok((state, actions)) =>
      var armed := if e.TimerFired? then r.armed - {e.timer} else r.armed;
      Run(state, Perform(armed, actions), r.accepted + [e])
  }

  function Execute(es: seq<Event>): Run {
    if es == [] then Run(Idle, {}, []) else Step(Execute(es[..|es| - 1]), es[|es| - 1])
  }

  /** The timers that a state owns. */
  function Owned(s: TransferState): set<Timer> {
    match s
    case Offered => {Consent}
    case Pending => {Consent}
    case Negotiating => {Negotiation}
    case Streaming => {ChunkAck}
    case Paused => {Pause}
    case Completing => {Completion}
    case _ => {}
  }

  /** An end that the machine reaches without cancelling the running timer. */
  predicate Abrupt(e: Event) {
    e == CancelReceived || e == FatalError || e == ConnectionLost
  }

  function Resumes(es: seq<Event>): nat {
    if es == [] then 0 else Resumes(es[..|es| - 1]) + if es[|es| - 1] == ResumeReceived then 1 else 0
  }

  function Rank(s: TransferState): nat {
    match s
    case Idle => 0
    case Offered => 1
    case Pending => 1
    case Negotiating => 2
    case Streaming => 3
    case Paused => 4
    case Completing => 4
    case _ => 5
  }

  /** The other side agreed to the transfer. */
  predicate Agreed(es: seq<Event>) {
    es != [] && (Agreed(es[..|es| - 1]) || es[|es| - 1] == UserAccept || es[|es| - 1] == ReceiveTransferAccept)
  }

  /** After that, the metadata of the files was agreed. */
  predicate Negotiated(es: seq<Event>) {
    es != [] && (Negotiated(es[..|es| - 1]) || (es[|es| - 1] == AllMetadataAcked && Agreed(es[..|es| - 1])))
  }

  /** After that, the chunks came to their end. */
  predicate Delivered(es: seq<Event>) {
    es != []
    && (Delivered(es[..|es| - 1])
        || ((es[|es| - 1] == LastChunkSent || es[|es| - 1] == AllChunksReceived) && Negotiated(es[..|es| - 1])))
  }

  predicate TimersKept(r: Run) {
    && (!IsTerminal(r.state) ==> r.armed == Owned(r.state))
    && (IsTerminal(r.state) ==> r.accepted != [] && (r.armed == {} <==> !Abrupt(r.accepted[|r.accepted| - 1])))
  }

  predicate EventsBounded(r: Run) {
    if IsTerminal(r.state) then |r.accepted| <= 5 + 2 * Resumes(r.accepted)
    else |r.accepted| == Rank(r.state) + 2 * Resumes(r.accepted)
  }

  predicate InOrder(r: Run) {
    && (r.state.Negotiating? ==> Agreed(r.accepted))
    && (r.state.Streaming? || r.state.Paused? ==> Negotiated(r.accepted))
    && (r.state.Completing? || r.state.Complete? ==> Delivered(r.accepted))
  }

  /** A transition hands the timers of its state over to those of the next; only an abrupt end drops them. */
  predicate HandsOver(t: Transition, s: TransferState, e: Event) {
    match t
    case Err(_) => true
    case Ok((next, actions)) =>
      && Perform(if e.TimerFired? then Owned(s) - {e.timer} else Owned(s), actions)
         == (if IsTerminal(next) && Abrupt(e) then Owned(s) else Owned(next))
      && (IsTerminal(next) && Abrupt(e) ==> Owned(s) != {})
  }

  lemma FromIdleHandsOver(e: Event)
    requires !Abrupt(e)
    ensures HandsOver(FromIdle(e), Idle, e)
  {
    if FromIdle(e).Ok? {
      PerformSteps(Owned(Idle), FromIdle(e).value.1);
    }
  }

  lemma FromOfferedHandsOver(e: Event)
    requires !Abrupt(e)
    ensures HandsOver(FromOffered(e), Offered, e)
  {
    if FromOffered(e).Ok? {
      PerformSteps(if e.TimerFired? then Owned(Offered) - {e.timer} else Owned(Offered), FromOffered(e).value.1);
    }
  }

  lemma FromPendingHandsOver(e: Event)
    requires !Abrupt(e)
    ensures HandsOver(FromPending(e), Pending, e)
  {
    if FromPending(e).Ok? {
      PerformSteps(if e.TimerFired? then Owned(Pending) - {e.timer} else Owned(Pending), FromPending(e).value.1);
    }
  }

  lemma FromNegotiatingHandsOver(e: Event)
    requires !Abrupt(e)
    ensures HandsOver(FromNegotiating(e), Negotiating, e)
  {
    if FromNegotiating(e).Ok? {
      PerformSteps(if e.TimerFired? then Owned(Negotiating) - {e.timer} else Owned(Negotiating), FromNegotiating(e).value.1);
    }
  }

  lemma FromStreamingHandsOver(e: Event)
    requires !Abrupt(e)
    ensures HandsOver(FromStreaming(e), Streaming, e)
  {
    if FromStreaming(e).Ok? {
      PerformSteps(if e.TimerFired? then Owned(Streaming) - {e.timer} else Owned(Streaming), FromStreaming(e).value.1);
    }
  }

  lemma FromPausedHandsOver(e: Event)
    requires !Abrupt(e)
    ensures HandsOver(FromPaused(e), Paused, e)
  {
    if FromPaused(e).Ok? {
      PerformSteps(if e.TimerFired? then Owned(Paused) - {e.timer} else Owned(Paused), FromPaused(e).value.1);
    }
  }

  lemma FromCompletingHandsOver(e: Event)
    requires !Abrupt(e)
    ensures HandsOver(FromCompleting(e), Completing, e)
  {
    if FromCompleting(e).Ok? {
      PerformSteps(if e.TimerFired? then Owned(Completing) - {e.timer} else Owned(Completing), FromCompleting(e).value.1);
    }
  }

  lemma AbruptHandsOver(s: TransferState, e: Event)
    requires Abrupt(e)
    ensures HandsOver(HandleEvent(s, e), s, e)
  {
    if HandleEvent(s, e).Ok? {
      PerformSteps(Owned(s), HandleEvent(s, e).value.1);
    }
  }

  lemma TimersAreHandedOver(s: TransferState, e: Event)
    ensures HandsOver(HandleEvent(s, e), s, e)
  {
    if Abrupt(e) {
      AbruptHandsOver(s, e);
    } else {
      match s {
        case Idle => FromIdleHandsOver(e);
        case Offered => FromOfferedHandsOver(e);
        case Pending => FromPendingHandsOver(e);
        case Negotiating => FromNegotiatingHandsOver(e);
        case Streaming => FromStreamingHandsOver(e);
        case Paused => FromPausedHandsOver(e);
        case Completing => FromCompletingHandsOver(e);
        case _ =>
      }
    }
  }

  lemma TerminalRefuses(s: TransferState, e: Event)
    requires IsTerminal(s)
    ensures HandleEvent(s, e).Err?
  {
  }

  lemma HandingOverKeepsTimers(r: Run, e: Event, next: TransferState, armed: set<Timer>)
    requires TimersKept(r) && !IsTerminal(r.state)
    requires armed == if IsTerminal(next) && Abrupt(e) then Owned(r.state) else Owned(next)
    requires IsTerminal(next) && Abrupt(e) ==> Owned(r.state) != {}
    ensures TimersKept(Run(next, armed, r.accepted + [e]))
  {
  }

  lemma StepKeepsTimers(r: Run, e: Event)
    requires TimersKept(r)
    ensures TimersKept(Step(r, e))
  {
    if IsTerminal(r.state) {
      TerminalRefuses(r.state, e);
    } else {
      TimersAreHandedOver(r.state, e);
      var h := HandleEvent(r.state, e);
      if h.Ok? {
        HandingOverKeepsTimers(r, e, h.value.0, Step(r, e).armed);
      }
    }
  }

  lemma StepBoundsEvents(r: Run, e: Event)
    requires EventsBounded(r)
    ensures EventsBounded(Step(r, e))
  {
    assert (r.accepted + [e])[..|r.accepted|] == r.accepted;
  }

  /** The only ways into the later states. */
  lemma WaysIn(s: TransferState, e: Event, next: TransferState)
    requires HandleEvent(s, e).Ok? && next == HandleEvent(s, e).value.0
    ensures next.Negotiating? ==> e == UserAccept || e == ReceiveTransferAccept
    ensures next.Streaming? ==> s.Paused? || (s.Negotiating? && e == AllMetadataAcked)
    ensures next.Paused? ==> s.Streaming?
    ensures next.Completing? ==> s.Streaming? && (e == LastChunkSent || e == AllChunksReceived)
    ensures next.Complete? ==> s.Completing?
  {
  }

  lemma StepKeepsOrder(r: Run, e: Event)
    requires InOrder(r)
    ensures InOrder(Step(r, e))
  {
    if HandleEvent(r.state, e).Ok? {
      WaysIn(r.state, e, HandleEvent(r.state, e).value.0);
    }
    assert (r.accepted + [e])[..|r.accepted|] == r.accepted;
  }

  /**
    * In every reachable state that is not final exactly the timers of that state run, and a run accepts at most five
    * events and two more for every resume. A final state leaves a timer running exactly if a cancellation, a fatal error
    * or a lost connection led to it; completion comes only after consent, then metadata, then the end of the chunks.
    */
  lemma {:induction false} RunsAreDisciplined(es: seq<Event>)
    ensures TimersKept(Execute(es)) && EventsBounded(Execute(es)) && InOrder(Execute(es))
  {
    if es != [] {
      var before, e := Execute(es[..|es| - 1]), es[|es| - 1];
      RunsAreDisciplined(es[..|es| - 1]);
      StepKeepsTimers(before, e);
      StepBoundsEvents(before, e);
      StepKeepsOrder(before, e);
    }
  }

  // ----- What each event does -----

  /** The states in which an event is accepted. */
  function AcceptedIn(e: Event): set<TransferState> {
    match e
    case SendTransferRequest => {Idle}
    case ReceiveTransferRequest => {Idle}
    case UserAccept => {Pending}
    case UserReject => {Pending}
    case ReceiveTransferAccept => {Offered}
    case ReceiveTransferReject => {Offered}
    case AllMetadataAcked => {Negotiating}
    case AllFilesRejected => {Negotiating}
    case PauseReceived => {Streaming}
    case ResumeReceived => {Paused}
    case LastChunkSent => {Streaming}
    case AllChunksReceived => {Streaming}
    case DiskFull => {Streaming}
    case ChecksumMismatch => {Streaming, Completing}
    case AckSent => {Completing}
    case AckSuccess => {Completing}
    case AckPartialFailure => {Completing}
    case TransferCompleteSent => {}
    case CancelReceived => {Offered, Pending, Negotiating, Streaming, Paused, Completing}
    case FatalError => {Offered, Pending, Negotiating, Streaming, Paused, Completing}
    case ConnectionLost => {Offered, Pending, Negotiating, Streaming, Paused, Completing}
    case TimerFired(Consent) => {Offered, Pending}
    case TimerFired(Negotiation) => {Negotiating}
    case TimerFired(ChunkAck) => {Streaming}
    case TimerFired(Pause) => {Paused}
    case TimerFired(Completion) => {Completing}
  }

  /** The state that an accepted event leads to, wherever it is accepted. */
  function LeadsTo(e: Event): TransferState {
    if e == SendTransferRequest then Offered
    else if e == ReceiveTransferRequest then Pending
    else if e == UserAccept || e == ReceiveTransferAccept then Negotiating
    else if e == AllMetadataAcked || e == ResumeReceived then Streaming
    else if e == PauseReceived then Paused
    else if e == LastChunkSent || e == AllChunksReceived then Completing
    else if e == AckSuccess || e == AckSent then Complete
    else if e == CancelReceived || e == UserReject || e == ReceiveTransferReject then Cancelled
    else Failed
  }

  /** The transition `t` is the one that event `e` makes from state `s`, as the two tables say. */
  predicate AsTabled(t: Transition, s: TransferState, e: Event) {
    match t
    case Ok((next, _)) => s in AcceptedIn(e) && next == LeadsTo(e)
    case Err(error) => s !in AcceptedIn(e) && error == InvalidTransition(s, e)
  }

  lemma FromIdleIsTabled(e: Event)
    requires !Abrupt(e)
    ensures AsTabled(FromIdle(e), Idle, e)
  {
  }

  lemma FromOfferedIsTabled(e: Event)
    requires !Abrupt(e)
    ensures AsTabled(FromOffered(e), Offered, e)
  {
  }

  lemma FromPendingIsTabled(e: Event)
    requires !Abrupt(e)
    ensures AsTabled(FromPending(e), Pending, e)
  {
  }

  lemma FromNegotiatingIsTabled(e: Event)
    requires !Abrupt(e)
    ensures AsTabled(FromNegotiating(e), Negotiating, e)
  {
  }

  lemma FromStreamingIsTabled(e: Event)
    requires !Abrupt(e)
    ensures AsTabled(FromStreaming(e), Streaming, e)
  {
  }

  lemma FromPausedIsTabled(e: Event)
    requires !Abrupt(e)
    ensures AsTabled(FromPaused(e), Paused, e)
  {
  }

  lemma FromCompletingIsTabled(e: Event)
    requires !Abrupt(e)
    ensures AsTabled(FromCompleting(e), Completing, e)
  {
  }

  /** The tables describe the machine exactly. */
  lemma AcceptedIff(s: TransferState, e: Event)
    ensures AsTabled(HandleEvent(s, e), s, e)
  {
    if !Abrupt(e) {
      match s {
        case Idle => FromIdleIsTabled(e);
        case Offered => FromOfferedIsTabled(e);
        case Pending => FromPendingIsTabled(e);
        case Negotiating => FromNegotiatingIsTabled(e);
        case Streaming => FromStreamingIsTabled(e);
        case Paused => FromPausedIsTabled(e);
        case Completing => FromCompletingIsTabled(e);
        case _ =>
      }
    }
  }

  /** The events on which an action is taken, in the state `s`. */
  predicate TakenOn(s: TransferState, e: Event, a: Action) {
    match a
    case DoSendTransferRequest => e == SendTransferRequest
    case DisplayConsentUi => e == ReceiveTransferRequest
    case SendTransferAccept => e == UserAccept
    case SendTransferReject => e == UserReject || (s.Pending? && e == TimerFired(Consent))
    case BeginMetadataExchange => e == UserAccept || e == ReceiveTransferAccept
    case BeginChunkTransmission => e == AllMetadataAcked
    case StopChunkTransmission => e == PauseReceived
    case ResumeChunkTransmission => e == ResumeReceived
    case SendTransferComplete => e == LastChunkSent
    case SendTransferAck => e == AllChunksReceived
    case SendTransferCancel => e == CancelReceived || e == TimerFired(Pause)
    case SendError(code) =>
      (code == "checksum_mismatch" && e == ChecksumMismatch) || (code == "disk_full" && e == DiskFull)
    case NotifyUser => IsTerminal(LeadsTo(e)) && !(s.Streaming? && (e == ChecksumMismatch || e == DiskFull))
    case CleanupPartialFiles => e == CancelReceived || (s.Streaming? && e == ChecksumMismatch)
    case PreserveResumeState =>
      || e == FatalError || e == ConnectionLost || e == TimerFired(Pause) || e == TimerFired(ChunkAck) || e == DiskFull
      || (s.Streaming? && e == ChecksumMismatch)
    case StartTimer(t) => t in Owned(LeadsTo(e))
    case CancelTimer(t) => t in Owned(s) && !Abrupt(e) && !e.TimerFired?
  }

  lemma FromIdleActsAsTabled(e: Event, a: Action)
    requires !Abrupt(e) && FromIdle(e).Ok?
    ensures a in FromIdle(e).value.1 <==> TakenOn(Idle, e, a)
  {
  }

  lemma FromOfferedActsAsTabled(e: Event, a: Action)
    requires !Abrupt(e) && FromOffered(e).Ok?
    ensures a in FromOffered(e).value.1 <==> TakenOn(Offered, e, a)
  {
  }

  lemma FromPendingActsAsTabled(e: Event, a: Action)
    requires !Abrupt(e) && FromPending(e).Ok?
    ensures a in FromPending(e).value.1 <==> TakenOn(Pending, e, a)
  {
  }

  lemma FromNegotiatingActsAsTabled(e: Event, a: Action)
    requires !Abrupt(e) && FromNegotiating(e).Ok?
    ensures a in FromNegotiating(e).value.1 <==> TakenOn(Negotiating, e, a)
  {
  }

  lemma FromStreamingActsAsTabled(e: Event, a: Action)
    requires !Abrupt(e) && FromStreaming(e).Ok?
    ensures a in FromStreaming(e).value.1 <==> TakenOn(Streaming, e, a)
  {
  }

  lemma FromPausedActsAsTabled(e: Event, a: Action)
    requires !Abrupt(e) && FromPaused(e).Ok?
    ensures a in FromPaused(e).value.1 <==> TakenOn(Paused, e, a)
  {
  }

  lemma FromCompletingActsAsTabled(e: Event, a: Action)
    requires !Abrupt(e) && FromCompleting(e).Ok?
    ensures a in FromCompleting(e).value.1 <==> TakenOn(Completing, e, a)
  {
  }

  lemma AbruptActsAsTabled(s: TransferState, e: Event, a: Action)
    requires Abrupt(e) && HandleEvent(s, e).Ok?
    ensures a in HandleEvent(s, e).value.1 <==> TakenOn(s, e, a)
  {
  }

  /** Every transition takes exactly these actions. */
  lemma ActionsAreExact(s: TransferState, e: Event, a: Action)
    requires HandleEvent(s, e).Ok?
    ensures a in HandleEvent(s, e).value.1 <==> TakenOn(s, e, a)
  {
    if Abrupt(e) {
      AbruptActsAsTabled(s, e, a);
    } else {
      match s {
        case Idle => FromIdleActsAsTabled(e, a);
        case Offered => FromOfferedActsAsTabled(e, a);
        case Pending => FromPendingActsAsTabled(e, a);
        case Negotiating => FromNegotiatingActsAsTabled(e, a);
        case Streaming => FromStreamingActsAsTabled(e, a);
        case Paused => FromPausedActsAsTabled(e, a);
        case Completing => FromCompletingActsAsTabled(e, a);
        case _ =>
      }
    }
  }

  /**
    * The last accepted event decides the state. In particular a run ends in Complete exactly on a successful
    * acknowledgement, in Cancelled exactly on a cancellation or a rejection, and in Failed on any other end.
    */
  lemma {:induction false} LastEventDecides(es: seq<Event>)
    ensures var r := Execute(es);
            && r.state == (if r.accepted == [] then Idle else LeadsTo(r.accepted[|r.accepted| - 1]))
            && forall e :: HandleEvent(r.state, e).Ok? <==> r.state in AcceptedIn(e)
  {
    if es != [] {
      LastEventDecides(es[..|es| - 1]);
      AcceptedIff(Execute(es[..|es| - 1]).state, es[|es| - 1]);
    }
    forall e ensures HandleEvent(Execute(es).state, e).Ok? <==> Execute(es).state in AcceptedIn(e) {
      AcceptedIff(Execute(es).state, e);
    }
  }
}
