// The send cycle (cajui_runtime.cpp): listen before talk, at most three identical
// transmissions, deadlines on a wrapping clock, and the radio asleep before the frame is released.
module Runtime {
  import opened Protocol
  import opened Codec
  import opened Store
  import opened StoreOps
  import opened StoreRuns
  import opened StoreObject
  import opened Delivery
  import opened Clocks

  datatype SendPolicy = SendPolicy(
    initialJitterMs: u32, ackTimeoutMs: u32, firstMinMs: u32, firstMaxMs: u32, secondMinMs: u32, secondMaxMs: u32,
    channelTimeoutMs: u32, transmitTimeoutMs: u32, cycleTimeoutMs: u32)

  /** Every interval lies below the cycle's, and the cycle below half the clock's range. */
  predicate ValidPolicy(p: SendPolicy)
  {
    && 0 < p.cycleTimeoutMs <= 0x7fff_ffff
    && p.initialJitterMs < p.cycleTimeoutMs
    && 0 < p.ackTimeoutMs < p.cycleTimeoutMs
    && 0 < p.channelTimeoutMs < p.cycleTimeoutMs
    && 0 < p.transmitTimeoutMs < p.cycleTimeoutMs
    && 0 < p.firstMinMs <= p.firstMaxMs < p.cycleTimeoutMs
    && 0 < p.secondMinMs <= p.secondMaxMs < p.cycleTimeoutMs
  }

  datatype SendState = Idle | Starting | Waiting | CheckingChannel | Transmitting | AwaitingAck | Finished

  datatype StartResult = Started | Busy | InvalidPolicy | ProtocolRejected | RadioUnavailable

  datatype Completion =
    | NotCompleted | Acknowledged | AttemptsExhausted | Deadline | RadioError | RadioTimeout | RandomError | Cancelled

  datatype SendReport = SendReport(completion: Completion, attempts: nat, rejectedAcks: nat, radioSleeping: bool,
                                   power: i8)

  const NO_REPORT := SendReport(NotCompleted, 0, 0, false, KEEP_POWER)

  datatype ChannelStatus = ChannelPending | ChannelClear | ChannelBusy | ChannelFault
  datatype TransmitStatus = TransmitPending | TransmitComplete(at: u32) | TransmitFault
  datatype ReceiveStatus = Nothing | Received(f: Frame) | ReceiveFault

  /** What the radio, the clock and the jitter source answer during one poll, which may stop the radio twice. */
  datatype Surroundings = Surroundings(
    now: u32, sleeps: bool, sleepsAgain: bool, jitter: Option<u32>, later: u32, startsCheck: bool,
      channel: ChannelStatus,
    startsTransmit: bool, transmit: TransmitStatus, heard: ReceiveStatus, observed: u32)

  // ------------------------------------------------------------------ one turn of the cycle

  /** The cycle as a poll finds it. */
  datatype Cycle = Cycle(
    state: SendState, cycleStart: u32, phaseStart: u32, waitMs: u32, rejected: nat, sender: SenderState)

  /** What a poll decides: the cycle ends, with the sender as it then is, or goes on. */
  datatype Turn = Ends(completion: Completion, sender: SenderState) | Goes(cycle: Cycle)

  /** The radio stops, and a jitter within bounds is waited for. */
  function WaitTurn(k: Cycle, minimum: u32, maximum: u32, e: Surroundings): Turn
  {
    if !e.sleeps then Ends(RadioError, k.sender)
    else if e.jitter.None? || e.jitter.value < minimum || e.jitter.value > maximum then Ends(RandomError, k.sender)
    else Goes(k.(waitMs := e.jitter.value, phaseStart := e.later, state := Waiting))
  }

  function BackoffTurn(p: SendPolicy, k: Cycle, e: Surroundings): Turn
  {
    if k.sender.attempts < 2 then WaitTurn(k, p.firstMinMs, p.firstMaxMs, e)
    else WaitTurn(k, p.secondMinMs, p.secondMaxMs, e)
  }

  function TransmitTurn(k: Cycle, e: Surroundings): Turn
  {
    if !CanAttempt(k.sender) then Ends(RadioError, k.sender)
    else if !e.startsTransmit then Ends(RadioError, Attempted(k.sender))
    else Goes(k.(sender := Attempted(k.sender), phaseStart := e.now, state := Transmitting))
  }

  function ChannelTurn(p: SendPolicy, k: Cycle, e: Surroundings): Turn
  {
    if Elapsed(e.now, k.phaseStart) >= p.channelTimeoutMs then Ends(RadioTimeout, k.sender)
    else match e.channel
      case ChannelPending => Goes(k)
      case ChannelBusy => BackoffTurn(p, k, e)
      case ChannelFault => Ends(RadioError, k.sender)
      case ChannelClear => TransmitTurn(k, e)
  }

  function TransmissionTurn(p: SendPolicy, k: Cycle, e: Surroundings): Turn
  {
    if Elapsed(e.now, k.phaseStart) >= p.transmitTimeoutMs then Ends(RadioTimeout, k.sender)
    else if Elapsed(e.observed, k.cycleStart) >= p.cycleTimeoutMs then Ends(Deadline, k.sender)
    else if Elapsed(e.observed, k.phaseStart) >= p.transmitTimeoutMs then Ends(RadioTimeout, k.sender)
    else match e.transmit
      case TransmitPending => Goes(k)
      case TransmitFault => Ends(RadioError, k.sender)
      case TransmitComplete(at) =>
        if Elapsed(at, k.phaseStart) > Elapsed(e.observed, k.phaseStart) then Ends(RadioError, k.sender)
        else Goes(k.(phaseStart := at, state := AwaitingAck))
  }

  ghost function AckTurn(p: SendPolicy, c: Crypto, k: Cycle, e: Surroundings): Turn
  {
    if Elapsed(e.now, k.phaseStart) >= p.ackTimeoutMs then
      if k.sender.attempts >= MAX_ATTEMPTS then Ends(AttemptsExhausted, k.sender) else BackoffTurn(p, k, e)
    else if Elapsed(e.observed, k.cycleStart) >= p.cycleTimeoutMs then Ends(Deadline, k.sender)
    else if Elapsed(e.observed, k.phaseStart) >= p.ackTimeoutMs then Goes(k)
    else match e.heard
      case Nothing => Goes(k)
      case ReceiveFault => Ends(RadioError, k.sender)
      case Received(f) =>
        if AckResult(c, k.sender, f) == Ok then Ends(Completion.Acknowledged, AfterAck(c, k.sender, f))
        else Goes(k.(rejected := if k.rejected == 0xffff_ffff then k.rejected else k.rejected + 1))
  }

  ghost function Turns(p: SendPolicy, c: Crypto, k: Cycle, e: Surroundings): Turn
  {
    if Elapsed(e.now, k.cycleStart) >= p.cycleTimeoutMs then Ends(Deadline, k.sender)
    else match k.state
      case Starting => WaitTurn(k, 0, p.initialJitterMs, e)
      case Waiting =>
        if Elapsed(e.now, k.phaseStart) < k.waitMs then Goes(k)
        else if !e.startsCheck then Ends(RadioError, k.sender)
        else Goes(k.(phaseStart := e.now, state := CheckingChannel))
      case CheckingChannel => ChannelTurn(p, k, e)
      case Transmitting => TransmissionTurn(p, k, e)
      case AwaitingAck => AckTurn(p, c, k, e)
      case _ => Goes(k)
  }

  /** The radio answered with a fault where its answer was due, or could not be stopped. */
  predicate Faulty(p: SendPolicy, k: Cycle, e: Surroundings)
  {
    match k.state
    case Starting => !e.sleeps
    case Waiting => Elapsed(e.now, k.phaseStart) >= k.waitMs && !e.startsCheck
    case CheckingChannel =>
      && Elapsed(e.now, k.phaseStart) < p.channelTimeoutMs
      && (e.channel.ChannelFault? || (e.channel.ChannelBusy? && !e.sleeps)
          || (e.channel.ChannelClear? && !e.startsTransmit))
    case Transmitting =>
      && Elapsed(e.now, k.phaseStart) < p.transmitTimeoutMs && Elapsed(e.observed, k.phaseStart) < p.transmitTimeoutMs
      && Elapsed(e.observed, k.cycleStart) < p.cycleTimeoutMs
      && (e.transmit.TransmitFault?
          || (e.transmit.TransmitComplete? && Elapsed(e.transmit.at, k.phaseStart) > Elapsed(e.observed, k.phaseStart)))
    case AwaitingAck =>
      if Elapsed(e.now, k.phaseStart) >= p.ackTimeoutMs then k.sender.attempts < MAX_ATTEMPTS && !e.sleeps
      else
        && Elapsed(e.observed, k.cycleStart) < p.cycleTimeoutMs && Elapsed(e.observed, k.phaseStart) < p.ackTimeoutMs
        && e.heard.ReceiveFault?
    case _ => false
  }

  /**
   * Within the deadline a cycle ends with a radio error exactly on a radio fault, and acknowledged
   * exactly when, within the timeout of the attempt on the air, the pending frame's acknowledgement is heard.
   */
  lemma CompletionsIff(p: SendPolicy, c: Crypto, k: Cycle, e: Surroundings)
    requires k.state.CheckingChannel? ==> CanAttempt(k.sender)
    ensures
      var turn, due := Turns(p, c, k, e), Elapsed(e.now, k.cycleStart) < p.cycleTimeoutMs;
      && (turn.Ends? && turn.completion.RadioError? <==> due && Faulty(p, k, e))
      && (turn.Ends? && turn.completion.Acknowledged? <==>
            && due && k.state.AwaitingAck? && Elapsed(e.now, k.phaseStart) < p.ackTimeoutMs
            && Elapsed(e.observed, k.cycleStart) < p.cycleTimeoutMs
              && Elapsed(e.observed, k.phaseStart) < p.ackTimeoutMs
            && e.heard.Received? && AckResult(c, k.sender, e.heard.f) == Ok)
      && (turn.Ends? && turn.completion.AttemptsExhausted? <==>
            due && k.state.AwaitingAck? && Elapsed(e.now, k.phaseStart) >= p.ackTimeoutMs
              && k.sender.attempts >= MAX_ATTEMPTS)
      && (turn.Ends? && turn.completion.Cancelled? <==> false)
  {
    hide AckResult, AfterAck;
  }

  // ------------------------------------------------------------------ each state of the cycle

  /** The cycle ends so, or waits for a jitter drawn from the interval once the radio sleeps. */
  predicate Draws(k: Cycle, minimum: u32, maximum: u32, e: Surroundings, turn: Turn)
  {
    if !e.sleeps then turn == Ends(RadioError, k.sender)
    else match e.jitter
      case None => turn == Ends(RandomError, k.sender)
      case Some(ms) =>
        if minimum <= ms <= maximum then turn == Goes(k.(state := Waiting, waitMs := ms, phaseStart := e.later))
        else turn == Ends(RandomError, k.sender)
  }

  /** Nothing outlasts the cycle's deadline. */
  lemma DeadlineLaw(p: SendPolicy, c: Crypto, k: Cycle, e: Surroundings)
    requires Elapsed(e.now, k.cycleStart) >= p.cycleTimeoutMs
    ensures Turns(p, c, k, e) == Ends(Deadline, k.sender)
  {
  }

  /** The cycle begins with the initial jitter; after any wait, and no sooner, the channel is checked. */
  lemma WaitLaw(p: SendPolicy, c: Crypto, k: Cycle, e: Surroundings)
    requires Elapsed(e.now, k.cycleStart) < p.cycleTimeoutMs
    ensures k.state.Starting? ==> Draws(k, 0, p.initialJitterMs, e, Turns(p, c, k, e))
    ensures k.state.Waiting? && Elapsed(e.now, k.phaseStart) < k.waitMs ==> Turns(p, c, k, e) == Goes(k)
    ensures k.state.Waiting? && Elapsed(e.now, k.phaseStart) >= k.waitMs ==>
      Turns(p, c, k, e) == if e.startsCheck then Goes(k.(state := CheckingChannel, phaseStart := e.now))
                           else Ends(RadioError, k.sender)
  {
  }

  /**
   * A clear channel gets the next attempt, and a busy one is waited out: within the first interval until
   * two attempts were made, and within the second after that. The radio has until its timeout to answer.
   */
  lemma ChannelLaw(p: SendPolicy, c: Crypto, k: Cycle, e: Surroundings)
    requires k.state.CheckingChannel? && CanAttempt(k.sender) && Elapsed(e.now, k.cycleStart) < p.cycleTimeoutMs
    ensures
      var turn := Turns(p, c, k, e);
      if Elapsed(e.now, k.phaseStart) >= p.channelTimeoutMs then turn == Ends(RadioTimeout, k.sender)
      else match e.channel
        case ChannelPending => turn == Goes(k)
        case ChannelFault => turn == Ends(RadioError, k.sender)
        case ChannelClear =>
          var tried := k.sender.(attempts := k.sender.attempts + 1);
          turn == if e.startsTransmit then Goes(k.(state := Transmitting, phaseStart := e.now, sender := tried))
                  else Ends(RadioError, tried)
        case ChannelBusy =>
          && (k.sender.attempts == 0 || k.sender.attempts == 1 ==> Draws(k, p.firstMinMs, p.firstMaxMs, e, turn))
          && (k.sender.attempts == 2 ==> Draws(k, p.secondMinMs, p.secondMaxMs, e, turn))
  {
  }

  /** A transmission that completed in time is followed by listening from the moment it completed. */
  lemma TransmissionLaw(p: SendPolicy, c: Crypto, k: Cycle, e: Surroundings)
    requires k.state.Transmitting? && Elapsed(e.now, k.cycleStart) < p.cycleTimeoutMs
    ensures
      var turn := Turns(p, c, k, e);
      if Elapsed(e.now, k.phaseStart) >= p.transmitTimeoutMs then turn == Ends(RadioTimeout, k.sender)
      else if Elapsed(e.observed, k.cycleStart) >= p.cycleTimeoutMs then turn == Ends(Deadline, k.sender)
      else if Elapsed(e.observed, k.phaseStart) >= p.transmitTimeoutMs then turn == Ends(RadioTimeout, k.sender)
      else match e.transmit
        case TransmitPending => turn == Goes(k)
        case TransmitFault => turn == Ends(RadioError, k.sender)
        case TransmitComplete(at) =>
          turn == if Elapsed(at, k.phaseStart) <= Elapsed(e.observed, k.phaseStart)
                  then Goes(k.(state := AwaitingAck, phaseStart := at)) else Ends(RadioError, k.sender)
  {
  }

  /**
   * Listening lasts for the acknowledgement's timeout. Then the third attempt ends the cycle, and before it the
   * wait is drawn from the first interval after one attempt and from the second after two. Within it the
   * pending frame's acknowledgement ends the cycle and any other frame is counted as rejected.
   */
  lemma ListeningLaw(p: SendPolicy, c: Crypto, k: Cycle, e: Surroundings)
    requires k.state.AwaitingAck? && 1 <= k.sender.attempts <= 3 && Elapsed(e.now, k.cycleStart) < p.cycleTimeoutMs
    ensures
      var turn := Turns(p, c, k, e);
      if Elapsed(e.now, k.phaseStart) >= p.ackTimeoutMs then
        && (k.sender.attempts == 3 ==> turn == Ends(AttemptsExhausted, k.sender))
        && (k.sender.attempts == 2 ==> Draws(k, p.secondMinMs, p.secondMaxMs, e, turn))
        && (k.sender.attempts == 1 ==> Draws(k, p.firstMinMs, p.firstMaxMs, e, turn))
      else if Elapsed(e.observed, k.cycleStart) >= p.cycleTimeoutMs then turn == Ends(Deadline, k.sender)
      else if Elapsed(e.observed, k.phaseStart) >= p.ackTimeoutMs then turn == Goes(k)
      else match e.heard
        case Nothing => turn == Goes(k)
        case ReceiveFault => turn == Ends(RadioError, k.sender)
        case Received(f) =>
          if AckResult(c, k.sender, f) == Ok
          then turn.Ends? && turn.completion.Acknowledged? && turn.sender.delivered
          else turn == Goes(k.(rejected := if k.rejected != 0xffff_ffff then k.rejected + 1 else k.rejected))
  {
    hide AckResult;
  }

  class SendController {
    const policy: SendPolicy
    const c: Crypto
    const sender: Sender
    var state: SendState
    var report: SendReport
    var protocolResult: Result
    var cycleStart: u32
    var phaseStart: u32
    var waitMs: u32
    var radioAvailable: bool
    /** The frames handed to the radio in this cycle, and whether the radio may still hold one. */
    ghost var sent: seq<Frame>
    ghost var held: bool

    ghost function Now(): Cycle
      reads this, sender
    {
      Cycle(state, cycleStart, phaseStart, waitMs, report.rejectedAcks, sender.Now())
    }

    /** The controller did what the turn says. */
    twostate predicate Turned(turn: Turn)
      reads this, sender
    {
      match turn
      case Goes(k) => Now() == k && report == old(report).(rejectedAcks := k.rejected)
      case Ends(completion, x) =>
        && state.Finished? && cycleStart == old(cycleStart)
        && report == SendReport(completion, x.attempts, old(report.rejectedAcks), radioAvailable,
                                if completion.Acknowledged? then x.power else KEEP_POWER)
        && sender.Now() == if radioAvailable then Abandoned(x) else x
    }

    predicate Active()
      reads this
    {
      !state.Idle? && !state.Finished?
    }

    /** The cycle so far: a pending frame, its attempts, and nothing else ever transmitted. */
    ghost predicate CycleInv()
      reads this, sender
    {
      && ValidPolicy(policy) && radioAvailable
      && TAG_SIZE <= |sender.pending| && !sender.delivered
      && |sent| <= sender.attempts <= MAX_ATTEMPTS
      && (forall i | 0 <= i < |sent| :: sent[i] == sender.pending)
      && (state.Starting? ==> sender.attempts == 0)
      && (state.Waiting? || state.CheckingChannel? ==> sender.attempts < MAX_ATTEMPTS)
      && (state.Transmitting? || state.AwaitingAck? ==> 1 <= sender.attempts)
    }

    ghost predicate Valid()
      reads this, sender
    {
      && (Active() ==> CycleInv())
      && (state.Finished? ==> (radioAvailable ==> sender.pending == [] && !held))
      && (sender.pending != [] ==> TAG_SIZE <= |sender.pending|)
      && (!radioAvailable ==> state.Finished?)
      && (held ==> sender.pending != []) && (state.Idle? ==> !held)
    }

    constructor (p: SendPolicy, crypto: Crypto, s: Sender)
      requires s.Now() == IDLE_SENDER
      ensures Valid() && state.Idle? && policy == p && c == crypto && sender == s && radioAvailable
    {
      policy, c, sender := p, crypto, s;
      state, report, protocolResult := Idle, NO_REPORT, Ok;
      cycleStart, phaseStart, waitMs, radioAvailable := 0, 0, 0, true;
      sent, held := [], false;
    }

    /** A failed radio shutdown bars every later start; a refused start changes no cycle. */
    method Start(store: PersistentStore, b: Binding, data: Data, started: u32) returns (result: StartResult)
      requires Valid() && store.Valid() && store.cfg.c == c
      modifies this, sender, store, store.records
      ensures Valid() && store.Valid()
      ensures old(Active()) ==> result.Busy?
      ensures !old(Active()) && !old(radioAvailable) ==> result.RadioUnavailable?
      ensures result.Started? ==> old(radioAvailable) && ValidPolicy(policy)
      ensures result.Started? ==> state.Starting? && sent == [] && cycleStart == started
      ensures result.Started? ==> BeginStep(store.cfg, old(store.Now()), old(sender.Now()), b, data, WIRE_V2,
                                            store.Now(), sender.Now(), Ok)
      ensures radioAvailable == old(radioAvailable)
      ensures !result.Started? ==> state == old(state) && report == old(report)
      ensures !old(Active()) && old(radioAvailable) && !ValidPolicy(policy) ==> result.InvalidPolicy?
      ensures !old(Active()) && old(radioAvailable) && ValidPolicy(policy) ==>
        && BeginStep(store.cfg, old(store.Now()), old(sender.Now()), b, data, WIRE_V2, store.Now(), sender.Now(),
                     protocolResult)
        && (if protocolResult == Ok then result.Started? else result.ProtocolRejected?)
        && (store.records.faults == old(store.records.faults) ==>
              BegunWhole(store.cfg, old(store.Now()), old(sender.Now()), b, data, WIRE_V2, store.Now(), protocolResult))
    {
      hide SystemInv, StoreBytes.View, BeginRefusal, Followed, PersistentStore.Valid, BeginStep, BegunWhole;
      if Active() {
        return StartResult.Busy;
      }
      if !radioAvailable {
        return RadioUnavailable;
      }
      if !ValidPolicy(policy) {
        return InvalidPolicy;
      }
      ghost var x := sender.Now();
      ghost var s := store.Now();
      protocolResult := sender.Begin(store, b, data, WIRE_V2);
      if protocolResult != Ok {
        RejectedKeeps(store.cfg, s, x, b, data, store.Now(), sender.Now(), protocolResult);
        return ProtocolRejected;
      }
      BegunPending(store.cfg, s, x, b, data, store.Now(), sender.Now());
      cycleStart, report, state := started, NO_REPORT, Starting;
      sent, held := [], false;
      return Started;
    }

    /** Stops the radio before releasing the frame it may still reference. */
    method Finish(completion: Completion, sleeps: bool)
      requires Active() && (sender.pending != [] ==> TAG_SIZE <= |sender.pending|) && (held ==> sender.pending != [])
      modifies this`radioAvailable, this`report, this`state, this`held, sender
      ensures Valid() && state.Finished? && report.completion == completion
      ensures radioAvailable == (old(radioAvailable) && sleeps) && report.radioSleeping == radioAvailable
      ensures report.attempts == old(sender.attempts) && report.rejectedAcks == old(report.rejectedAcks)
      ensures report.power == if completion.Acknowledged? then old(sender.power) else KEEP_POWER
      ensures radioAvailable ==> sender.pending == [] && !held
      ensures !radioAvailable ==> sender.Now() == old(sender.Now()) && held == old(held)
      ensures Turned(Ends(completion, old(sender.Now())))
    {
      radioAvailable := radioAvailable && sleeps;
      report := SendReport(completion, sender.attempts, report.rejectedAcks, radioAvailable,
                           if completion.Acknowledged? then sender.power else KEEP_POWER);
      state := SendState.Finished;
      if radioAvailable {
        held := false;
        sender.Abandon();
      }
    }

    method Wait(minimum: u32, maximum: u32, e: Surroundings)
      requires Active() && Valid() && sender.attempts < MAX_ATTEMPTS
      modifies this`radioAvailable, this`report, this`state, this`held, this`waitMs, this`phaseStart, sender
      ensures Valid() && (state.Waiting? || state.Finished?)
      ensures state.Waiting? ==> e.sleeps && minimum <= waitMs <= maximum && phaseStart == e.later
      ensures state.Waiting? ==> sender.Now() == old(sender.Now()) && report == old(report) && !held
      ensures state.Finished? ==> report.completion == if e.sleeps then RandomError else RadioError
      ensures state.Finished? ==> radioAvailable == (e.sleeps && e.sleepsAgain)
      ensures state.Finished? && !radioAvailable ==> sender.Now() == old(sender.Now())
      ensures Turned(WaitTurn(old(Now()), minimum, maximum, e))
    {
      if !e.sleeps {
        radioAvailable := false;
        Finish(RadioError, e.sleeps);
        return;
      }
      held := false;
      if e.jitter.None? || e.jitter.value < minimum || e.jitter.value > maximum {
        Finish(RandomError, e.sleepsAgain);
        return;
      }
      waitMs, phaseStart, state := e.jitter.value, e.later, Waiting;
    }

    method Backoff(e: Surroundings)
      requires Active() && Valid() && sender.attempts < MAX_ATTEMPTS
      modifies this`radioAvailable, this`report, this`state, this`held, this`waitMs, this`phaseStart, sender
      ensures Valid() && (state.Waiting? || state.Finished?)
      ensures state.Waiting? ==> sender.Now() == old(sender.Now()) && !held
      ensures state.Finished? ==> report.completion == if e.sleeps then RandomError else RadioError
      ensures state.Finished? ==> radioAvailable == (e.sleeps && e.sleepsAgain)
      ensures Turned(BackoffTurn(policy, old(Now()), e))
    {
      if sender.attempts < 2 {
        Wait(policy.firstMinMs, policy.firstMaxMs, e);
      } else {
        Wait(policy.secondMinMs, policy.secondMaxMs, e);
      }
    }

    /** The channel is clear: the next attempt exists, and is the pending frame. */
    method Transmit(e: Surroundings)
      requires state.CheckingChannel? && Valid()
      modifies this`radioAvailable, this`report, this`state, this`held, this`phaseStart, this`sent, sender
      ensures Valid() && (state.Transmitting? || state.Finished?)
      ensures state.Transmitting? <==> e.startsTransmit
      ensures state.Transmitting? ==>
        && sent == old(sent) + [old(sender.pending)] && held && sender.Now() == Attempted(old(sender.Now()))
      ensures state.Finished? ==> sent == old(sent) && report.completion.RadioError?
      ensures state.Finished? ==> radioAvailable == e.sleeps
      ensures Turned(TransmitTurn(old(Now()), e))
    {
      var frame := sender.NextAttempt();
      held := true;
      if frame.None? || !e.startsTransmit {
        Finish(RadioError, e.sleeps);
        return;
      }
      sent := sent + [frame.value];
      phaseStart, state := e.now, Transmitting;
    }

    method CheckChannel(e: Surroundings)
      requires state.CheckingChannel? && Valid()
      modifies this`radioAvailable, this`report, this`state, this`held, this`waitMs, this`phaseStart, this`sent, sender
      ensures Valid()
      ensures sent == old(sent) || (state.Transmitting? && sent == old(sent) + [old(sender.pending)])
      ensures state.Finished? ==> !report.completion.AttemptsExhausted? && !report.completion.Acknowledged?
      ensures state.Finished? ==> radioAvailable == (e.sleeps && (report.completion.RandomError? ==> e.sleepsAgain))
      ensures Active() ==> sender.pending == old(sender.pending)
      ensures Turned(ChannelTurn(policy, old(Now()), e))
    {
      if Elapsed(e.now, phaseStart) >= policy.channelTimeoutMs {
        Finish(RadioTimeout, e.sleeps);
        return;
      }
      if e.channel.ChannelPending? {
        return;
      }
      if e.channel.ChannelBusy? {
        Backoff(e);
        return;
      }
      if !e.channel.ChannelClear? {
        Finish(RadioError, e.sleeps);
        return;
      }
      Transmit(e);
    }

    method AwaitTransmission(e: Surroundings)
      requires state.Transmitting? && Valid()
      modifies this`radioAvailable, this`report, this`state, this`held, this`phaseStart, sender
      ensures Valid() && (state.Transmitting? || state.AwaitingAck? || state.Finished?)
      ensures state.Finished? ==> !report.completion.AttemptsExhausted? && !report.completion.Acknowledged?
      ensures state.Finished? ==> radioAvailable == (e.sleeps && (report.completion.RandomError? ==> e.sleepsAgain))
      ensures Active() ==> sender.Now() == old(sender.Now()) && Elapsed(e.observed, cycleStart) < policy.cycleTimeoutMs
      ensures state.AwaitingAck? ==> e.transmit.TransmitComplete? && phaseStart == e.transmit.at
      ensures state.AwaitingAck? ==>
        Elapsed(e.transmit.at, old(phaseStart)) <= Elapsed(e.observed, old(phaseStart)) < policy.transmitTimeoutMs
      ensures Turned(TransmissionTurn(policy, old(Now()), e))
    {
      if Elapsed(e.now, phaseStart) >= policy.transmitTimeoutMs {
        Finish(RadioTimeout, e.sleeps);
        return;
      }
      if Elapsed(e.observed, cycleStart) >= policy.cycleTimeoutMs {
        Finish(Deadline, e.sleeps);
        return;
      }
      if Elapsed(e.observed, phaseStart) >= policy.transmitTimeoutMs {
        Finish(RadioTimeout, e.sleeps);
        return;
      }
      if e.transmit.TransmitPending? {
        return;
      }
      if !e.transmit.TransmitComplete? || Elapsed(e.transmit.at, phaseStart) > Elapsed(e.observed, phaseStart) {
        Finish(RadioError, e.sleeps);
        return;
      }
      phaseStart, state := e.transmit.at, AwaitingAck;
    }

    method AwaitAck(e: Surroundings)
      requires state.AwaitingAck? && Valid()
      modifies this`radioAvailable, this`report, this`state, this`held, this`waitMs, this`phaseStart, sender
      ensures Valid() && (state.AwaitingAck? || state.Waiting? || state.Finished?)
      ensures state.Finished? ==>
        && (report.completion.AttemptsExhausted?
            <==> Elapsed(e.now, old(phaseStart)) >= policy.ackTimeoutMs && old(sender.attempts) == MAX_ATTEMPTS)
        && (report.completion.Acknowledged? ==>
              e.heard.Received? && AckResult(c, old(sender.Now()), e.heard.f) == Ok
              && Elapsed(e.observed, old(phaseStart)) < policy.ackTimeoutMs)
      ensures state.Finished? ==> radioAvailable == (e.sleeps && (report.completion.RandomError? ==> e.sleepsAgain))
      ensures Active() ==> sender.pending == old(sender.pending) && sender.attempts == old(sender.attempts)
      ensures Turned(AckTurn(policy, c, old(Now()), e))
    {
      hide Open;
      if Elapsed(e.now, phaseStart) >= policy.ackTimeoutMs {
        if sender.attempts >= MAX_ATTEMPTS {
          Finish(AttemptsExhausted, e.sleeps);
        } else {
          Backoff(e);
        }
        return;
      }
      if Elapsed(e.observed, cycleStart) >= policy.cycleTimeoutMs {
        Finish(Deadline, e.sleeps);
        return;
      }
      if Elapsed(e.observed, phaseStart) >= policy.ackTimeoutMs || e.heard.Nothing? {
        return;
      }
      if !e.heard.Received? {
        Finish(RadioError, e.sleeps);
        return;
      }
      var result := sender.Acknowledge(c, e.heard.f);
      if result == Ok {
        Finish(Completion.Acknowledged, e.sleeps);
      } else if report.rejectedAcks != 0xffff_ffff {
        report := report.(rejectedAcks := report.rejectedAcks + 1);
      }
    }

    /**
     * One poll. Past the cycle's deadline it ends the cycle; it transmits at most once, always
     * the pending frame, and never a fourth time.
     */
    method Poll(e: Surroundings)
      requires Valid()
      modifies this`radioAvailable, this`report, this`state, this`held, this`waitMs, this`phaseStart, this`sent, sender
      ensures Valid()
      ensures !old(Active()) ==> Now() == old(Now()) && report == old(report) && sent == old(sent)
      ensures old(Active()) ==> Turned(Turns(policy, c, old(Now()), e))
      ensures old(Active()) && Elapsed(e.now, cycleStart) >= policy.cycleTimeoutMs ==>
        state.Finished? && report.completion.Deadline?
      ensures sent == old(sent) || sent == old(sent) + [old(sender.pending)]
      ensures old(Active()) ==> |sent| <= MAX_ATTEMPTS && forall i | 0 <= i < |sent| :: sent[i] == old(sender.pending)
      ensures old(Active()) && Active() ==> sender.pending == old(sender.pending)
      ensures old(Active()) && state.Finished? && report.completion.AttemptsExhausted? ==>
        old(sender.attempts) == MAX_ATTEMPTS
      ensures old(Active()) && state.Finished? ==>
        radioAvailable == (e.sleeps && (report.completion.RandomError? ==> e.sleepsAgain))
      ensures !old(radioAvailable) ==> !radioAvailable
      ensures held ==> sender.pending != []
    {
      hide AckResult, AfterAck;
      if !Active() {
        return;
      }
      if Elapsed(e.now, cycleStart) >= policy.cycleTimeoutMs {
        Finish(Deadline, e.sleeps);
        return;
      }
      if state.Starting? {
        Wait(0, policy.initialJitterMs, e);
      } else if state.Waiting? {
        if Elapsed(e.now, phaseStart) >= waitMs {
          if !e.startsCheck {
            Finish(RadioError, e.sleeps);
          } else {
            phaseStart, state := e.now, CheckingChannel;
          }
        }
      } else if state.CheckingChannel? {
        CheckChannel(e);
      } else if state.Transmitting? {
        AwaitTransmission(e);
      } else {
        AwaitAck(e);
      }
    }

    method Cancel(sleeps: bool)
      requires Valid()
      modifies this`radioAvailable, this`report, this`state, this`held, sender
      ensures Valid() && !Active()
      ensures old(Active()) ==> report.completion.Cancelled? && (radioAvailable <==> sleeps)
    {
      if Active() {
        Finish(Cancelled, sleeps);
      }
    }
  }

  /** A refused begin leaves the sender's pending frame alone. */
  lemma RejectedKeeps(cfg: Config, s: State, x: SenderState, b: Binding, data: Data, t: State, y: SenderState,
                      result: Result)
    requires BeginStep(cfg, s, x, b, data, WIRE_V2, t, y, result) && result != Ok
    ensures y == x
  {
    hide BeginRefusal, Followed;
  }

  lemma BegunPending(cfg: Config, s: State, x: SenderState, b: Binding, data: Data, t: State, y: SenderState)
    requires BeginStep(cfg, s, x, b, data, WIRE_V2, t, y, Ok)
    ensures TAG_SIZE <= |y.pending| && !y.delivered && y.attempts == 0
  {
    hide Followed;
    BeginNeverRefusesOk(x, b, data);
    var m := DataMessage(data, WIRE_V2, y.counter);
    var p := cfg.c.encrypt(b.key, NonceOf(m), HeaderOf(b, m), Payload(m));
    assert y.pending == HeaderOf(b, m) + p.cipher + p.tag;
  }

  lemma BeginNeverRefusesOk(x: SenderState, b: Binding, data: Data)
    ensures BeginRefusal(x, b, data, WIRE_V2) != Some(Ok)
    ensures BeginRefusal(x, b, data, WIRE_V2).None? ==> data.count <= MAX_READINGS
  {
  }

  /**
   * The cycle's deadline holds across a wrap of the clock: a poll whose true time is past it,
   * and less than a full turn after the start, sees it as past, and an earlier one does not.
   */
  lemma DeadlineAcrossWrap(p: SendPolicy, start: nat, now: nat)
    requires ValidPolicy(p) && start <= now < start + 0x1_0000_0000
    ensures Elapsed(Reading32(now), Reading32(start)) >= p.cycleTimeoutMs <==> now >= start + p.cycleTimeoutMs
  {
    ElapsedTrue(start, now);
  }
}
