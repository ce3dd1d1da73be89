// The node's side of radio pairing (`PairingClient`): request, offer, confirmation, completion.
module ClientPairing {
  import opened Protocol
  import opened Codec
  import opened Records
  import opened Store
  import opened StoreOps
  import opened StoreRuns
  import opened StoreObject
  import opened StoreLaws
  import opened Pairing
  import opened PairingStore
  import opened HostPairing
  import opened Clocks

  const DEADLINE_MS := PAIRING_WINDOW_MS
  const LISTEN_MS := 1500
  const TRANSMIT_TIMEOUT_MS := 3000
  const RETRY_MAX_MS: u32 := 800
  const CONFIRM_ATTEMPTS := 5

  datatype ClientPhase = Idle | Checking | Sending | Listening | Waiting | AwaitingDone | InNetwork | Failure

  datatype Client = Client(
    phase: ClientPhase, afterSend: ClientPhase, private: XKey, public: XKey, nonce: u64,
    startedAt: u32, phaseAt: u32, waitMs: u32, confirms: nat, terms: Terms, key: Key, outgoing: Frame)

  const NEW_CLIENT := Client(Idle, Idle, ZERO32, ZERO32, 0, 0, 0, 0, 0, NO_TERMS, ZERO16, [])

  datatype Channel = Pending | Clear | Busy | ChannelError
  datatype Sent = InFlight | Complete | SendError
  datatype Heard = Nothing | Frame(f: Frame) | HearError

  /** What the radio and the jitter source answer when asked during one call. */
  datatype Radio = Radio(
    startsCheck: bool, channel: Channel, startsTransmit: bool, sent: Sent, heard: Heard, jitter: Option<u32>)

  // ------------------------------------------------------------------ transitions

  function Fails(k: Client): Client { k.(private := ZERO32, public := ZERO32, key := ZERO16, phase := Failure) }

  function Transmits(k: Client, next: ClientPhase, r: Radio, now: u32): Client
  {
    var t := k.(phaseAt := now, afterSend := next);
    if r.startsCheck then t.(phase := Checking) else Fails(t)
  }

  function Waits(k: Client, r: Radio, now: u32): Client
  {
    k.(waitMs := if r.jitter.Some? then r.jitter.value else RETRY_MAX_MS, phaseAt := now, phase := Waiting)
  }

  function ClientKey(x: Agreement, k: Client, device: u64, o: Terms): Option<Key>
  {
    DeriveBindingKey(x, k.private, o.receiverPublic, o.network, o.receiver, device, o.generation, k.public,
                     o.receiverPublic)
  }

  /** The offer is addressed to this attempt and authenticates under the key both ends derive. */
  predicate ForUs(x: Agreement, c: Crypto, k: Client, device: u64, f: Frame)
  {
    var o := ParseOffer(f);
    && o.Some? && o.value.node == device && o.value.nonce == k.nonce && o.value.receiver != device
    && o.value.profile == PAIRING_PROFILE
    && ClientKey(x, k, device, o.value).Some?
    && VerifyOffer(c, f, ClientKey(x, k, device, o.value).value)
  }

  /** One network, and one receiver, per device. */
  predicate Compatible(m: Mem, o: Terms)
  {
    m.registry.network == 0 || (m.registry.network == o.network && m.registry.receiver == o.receiver)
  }

  function OfferHeard(x: Agreement, c: Crypto, k: Client, m: Mem, device: u64, f: Frame, r: Radio, now: u32): Client
  {
    if !ForUs(x, c, k, device, f) then k
    else
      var o := ParseOffer(f).value;
      var key := ClientKey(x, k, device, o).value;
      var confirm := BuildTagged(c, Confirm, o.network, device, k.nonce, key);
      if !Compatible(m, o) || confirm.None? then Fails(k)
      else Transmits(k.(terms := o, key := key, outgoing := confirm.value, confirms := 1), AwaitingDone, r, now)
  }

  predicate DoneHeard(c: Crypto, k: Client, device: u64, f: Frame)
  {
    k.phase.AwaitingDone? && UntrustedType(f) == 6
    && VerifyTagged(c, f, PairingType.Done, k.terms.network, device, k.nonce, k.key)
  }

  function CheckingPoll(k: Client, r: Radio, now: u32): Client
  {
    if r.channel.ChannelError? || (r.channel.Pending? && Elapsed(now, k.phaseAt) >= TRANSMIT_TIMEOUT_MS) then Fails(k)
    else if r.channel.Busy? then Waits(k, r, now)
    else if r.channel.Clear? then
      var t := k.(phaseAt := now);
      if r.startsTransmit then t.(phase := Sending) else Fails(t)
    else k
  }

  function SendingPoll(k: Client, r: Radio, now: u32): Client
  {
    if r.sent.SendError? || (r.sent.InFlight? && Elapsed(now, k.phaseAt) >= TRANSMIT_TIMEOUT_MS) then Fails(k)
    else if r.sent.Complete? then k.(phase := k.afterSend, phaseAt := now)
    else k
  }

  /** Nothing for us was heard: listen on, repeat the confirmation, or ask again. */
  function QuietPoll(k: Client, r: Radio, now: u32): Client
  {
    if Elapsed(now, k.phaseAt) < LISTEN_MS then k
    else if k.phase.AwaitingDone? then
      if k.confirms >= CONFIRM_ATTEMPTS then Fails(k)
      else Transmits(k.(confirms := k.confirms + 1), AwaitingDone, r, now)
    else Waits(k.(afterSend := Listening), r, now)
  }

  /** What one call of `poll` decides; a valid completion goes on to the store. */
  datatype Decision = Stay(client: Client) | Store(client: Client)

  function Hears(x: Agreement, c: Crypto, k: Client, m: Mem, device: u64, r: Radio, now: u32): Decision
  {
    if r.heard.HearError? then Stay(Fails(k))
    else if r.heard.Frame? && k.phase.Listening? && UntrustedType(r.heard.f) == 4
    then Stay(OfferHeard(x, c, k, m, device, r.heard.f, r, now))
    else if r.heard.Frame? && DoneHeard(c, k, device, r.heard.f) then Store(k)
    else Stay(QuietPoll(k, r, now))
  }

  function Decide(x: Agreement, c: Crypto, k: Client, m: Mem, device: u64, r: Radio, now: u32): Decision
  {
    if k.phase.Idle? || k.phase.InNetwork? || k.phase.Failure? then Stay(k)
    else if Elapsed(now, k.startedAt) >= DEADLINE_MS then Stay(Fails(k))
    else match k.phase
      case Checking => Stay(CheckingPoll(k, r, now))
      case Sending => Stay(SendingPoll(k, r, now))
      case Waiting => Stay(if Elapsed(now, k.phaseAt) >= k.waitMs then Transmits(k, k.afterSend, r, now) else k)
      case _ => Hears(x, c, k, m, device, r, now)
  }

  /** After the binding was stored and activated, or not. */
  function Ended(k: Client, ok: bool): Client
  {
    if ok then k.(private := ZERO32, public := ZERO32, key := ZERO16, phase := InNetwork) else Fails(k)
  }

  datatype Beginning = Beginning(private: Option<XKey>, nonce: u64)

  /** `start`. */
  function Starts(x: Agreement, k: Client, m: Mem, free: nat, transmitter: bool, device: u64, b: Beginning, r: Radio,
                  now: u32): Client
  {
    if !k.phase.Idle? || m.health != Ready || !transmitter || free == 0 || b.private.None?
      || x.public(b.private.value).None?
    then Fails(k)
    else Asks(k, device, b.private.value, x.public(b.private.value).value, b.nonce, r, now)
  }

  /** The first request of an attempt. */
  function Asks(k: Client, device: u64, private: XKey, public: XKey, nonce: u64, r: Radio, now: u32): Client
  {
    var request := BuildRequest(device, nonce, public);
    if request.None? then Fails(k)
    else
      Transmits(k.(private := private, public := public, nonce := nonce, outgoing := request.value, startedAt := now),
                Listening, r, now)
  }

  // ------------------------------------------------------------------ the invariant

  /** An accepted offer: its terms, the key derived from them, and the confirmation being sent. */
  ghost predicate Agreed(k: Client, x: Agreement, c: Crypto, device: u64)
  {
    && TermsFit(k.terms) && k.terms.node == device && k.terms.nonce == k.nonce
    && k.terms.profile == PAIRING_PROFILE && k.terms.receiver != device
    && ClientKey(x, k, device, k.terms) == Some(k.key)
    && k.outgoing == TaggedFrame(c, Confirm, k.terms.network, device, k.nonce, k.key)
    && 1 <= k.confirms <= CONFIRM_ATTEMPTS
  }

  predicate Running(k: Client) { !k.phase.Idle? && !k.phase.InNetwork? && !k.phase.Failure? }

  /** Where the exchange stands: before the offer it asks, after it confirms. */
  ghost predicate ClientInv(k: Client, x: Agreement, c: Crypto, device: u64)
  {
    Running(k) ==>
      && x.public(k.private) == Some(k.public) && k.nonce != 0
      && (k.phase.Listening? ==> k.afterSend.Listening?)
      && (k.phase.AwaitingDone? ==> k.afterSend.AwaitingDone?)
      && (k.afterSend.Listening? || k.afterSend.AwaitingDone?)
      && (if k.afterSend.AwaitingDone? then Agreed(k, x, c, device)
          else BuildRequest(device, k.nonce, k.public) == Some(k.outgoing))
  }

  lemma OfferKeeps(x: Agreement, c: Crypto, k: Client, m: Mem, device: u64, f: Frame, r: Radio, now: u32)
    requires ClientInv(k, x, c, device) && k.phase.Listening?
    ensures ClientInv(OfferHeard(x, c, k, m, device, f, r, now), x, c, device)
  {
    hide VerifyOffer, DeriveBindingKey, TaggedFrame, BuildRequest;
  }

  /** The attempt is the same one; once an offer was accepted its terms, key and confirmation stay. */
  predicate SameAttempt(k: Client, t: Client)
  {
    && t.private == k.private && t.public == k.public && t.nonce == k.nonce && t.startedAt == k.startedAt
    && (k.afterSend.AwaitingDone? ==>
          && t.afterSend.AwaitingDone? && t.terms == k.terms && t.key == k.key && t.outgoing == k.outgoing
          && k.confirms <= t.confirms)
    && (t.afterSend.Listening? ==> t.outgoing == k.outgoing)
  }

  /** One poll keeps it; the confirmation is sent at most five times. */
  lemma DecideKeeps(x: Agreement, c: Crypto, k: Client, m: Mem, device: u64, r: Radio, now: u32)
    requires ClientInv(k, x, c, device)
    ensures ClientInv(Decide(x, c, k, m, device, r, now).client, x, c, device)
    ensures Decide(x, c, k, m, device, r, now).Store? ==>
      && Running(k) && Decide(x, c, k, m, device, r, now).client == k && Agreed(k, x, c, device) && r.heard.Frame?
      && r.heard.f == TaggedFrame(c, PairingType.Done, k.terms.network, device, k.nonce, k.key)
  {
    if r.heard.Frame? {
      TaggedIff(c, r.heard.f, PairingType.Done, k.terms.network, device, k.nonce, k.key);
      if k.phase.Listening? {
        OfferKeeps(x, c, k, m, device, r.heard.f, r, now);
      }
    }
    hide VerifyTagged, DeriveBindingKey, TaggedFrame, BuildRequest, OfferHeard, UntrustedType, ForUs;
  }

  /** Whatever a poll hears, an attempt keeps one key, and the confirmation of one offer. */
  lemma AttemptKept(x: Agreement, c: Crypto, k: Client, m: Mem, device: u64, r: Radio, now: u32)
    requires ClientInv(k, x, c, device) && Running(k) && Running(Decide(x, c, k, m, device, r, now).client)
    ensures SameAttempt(k, Decide(x, c, k, m, device, r, now).client)
  {
    hide VerifyTagged, DeriveBindingKey, TaggedFrame, BuildTagged, BuildRequest, ForUs, UntrustedType, ParseOffer,
      TermsFit;
  }

  lemma StartsKeeps(x: Agreement, c: Crypto, k: Client, m: Mem, free: nat, transmitter: bool, device: u64,
                    b: Beginning, r: Radio, now: u32)
    requires ClientInv(k, x, c, device)
    ensures ClientInv(Starts(x, k, m, free, transmitter, device, b, r, now), x, c, device)
  {
  }

  // ------------------------------------------------------------------ the object

  class PairingClient {
    const store: PersistentStore
    const agreement: Agreement
    var phase: ClientPhase
    var afterSend: ClientPhase
    var private: XKey
    var public: XKey
    var nonce: u64
    var startedAt: u32
    var phaseAt: u32
    var waitMs: u32
    var confirms: nat
    var terms: Terms
    var key: Key
    var outgoing: Frame

    ghost function Now(): Client
      reads this
    {
      Client(phase, afterSend, private, public, nonce, startedAt, phaseAt, waitMs, confirms, terms, key, outgoing)
    }

    ghost predicate Valid()
      reads this, store, store.records
    {
      store.Valid() && ClientInv(Now(), agreement, store.cfg.c, store.cfg.device)
    }

    constructor (s: PersistentStore, x: Agreement)
      requires s.Valid()
      ensures Valid() && store == s && agreement == x && Now() == NEW_CLIENT
    {
      store, agreement := s, x;
      phase, afterSend, private, public, nonce := Idle, Idle, ZERO32, ZERO32, 0;
      startedAt, phaseAt, waitMs, confirms := 0, 0, 0, 0;
      terms, key, outgoing := NO_TERMS, ZERO16, [];
    }

    method Fail()
      modifies this
      ensures Now() == Fails(old(Now()))
    {
      private, public, key, phase := ZERO32, ZERO32, ZERO16, Failure;
    }

    method Transmit(next: ClientPhase, r: Radio, now: u32)
      modifies this
      ensures Now() == Transmits(old(Now()), next, r, now)
    {
      phaseAt, afterSend := now, next;
      if !r.startsCheck {
        Fail();
        return;
      }
      phase := Checking;
    }

    method Wait(r: Radio, now: u32)
      modifies this
      ensures Now() == Waits(old(Now()), r, now)
    {
      waitMs := if r.jitter.Some? then r.jitter.value else RETRY_MAX_MS;
      phaseAt, phase := now, Waiting;
    }

    method Start(b: Beginning, r: Radio, now: u32) returns (ok: bool)
      requires Valid()
      modifies this
      ensures Valid() && (ok <==> !phase.Failure?)
      ensures Now() == Starts(agreement, old(Now()), store.Memory(),
                              FreeSlotsIn(store.Memory()), store.cfg.role.Transmitter?, store.cfg.device, b, r, now)
    {
      hide SystemInv, StoreBytes.View, FreeSlotsIn, ClientInv, Asks;
      ghost var free := FreeSlotsIn(store.Memory());
      StartsKeeps(agreement, store.cfg.c, Now(), store.Memory(), free, store.cfg.role.Transmitter?, store.cfg.device,
                  b, r, now);
      var slots := store.FreeSlots();
      if !phase.Idle? || store.health != Ready || !store.cfg.role.Transmitter? || slots == 0
         || b.private.None? || agreement.public(b.private.value).None? {
        Fail();
        return false;
      }
      Ask(b.private.value, agreement.public(b.private.value).value, b.nonce, r, now);
      return !phase.Failure?;
    }

    method Ask(mine: XKey, shown: XKey, attempt: u64, r: Radio, now: u32)
      modifies this
      ensures Now() == Asks(old(Now()), store.cfg.device, mine, shown, attempt, r, now)
    {
      var request := BuildRequest(store.cfg.device, attempt, shown);
      if request.None? {
        Fail();
        return;
      }
      private, public, nonce, outgoing, startedAt := mine, shown, attempt, request.value, now;
      Transmit(Listening, r, now);
    }

    method HandleOffer(f: Frame, r: Radio, now: u32)
      modifies this
      ensures Now() == OfferHeard(agreement, store.cfg.c, old(Now()), store.Memory(), store.cfg.device, f, r, now)
    {
      hide VerifyOffer, DeriveBindingKey, TaggedFrame;
      var parsed := ParseOffer(f);
      var self := store.cfg.device;
      if parsed.None? {
        return;
      }
      var o := parsed.value;
      if o.node != self || o.nonce != nonce || o.receiver == self || o.profile != PAIRING_PROFILE {
        return;
      }
      var derived := DeriveBindingKey(agreement, private, o.receiverPublic, o.network, o.receiver, self, o.generation,
                                      public, o.receiverPublic);
      if derived.None? || !VerifyOffer(store.cfg.c, f, derived.value) {
        return;
      }
      var compatible := store.registry.network == 0
        || (store.registry.network == o.network && store.registry.receiver == o.receiver);
      var confirm := BuildTagged(store.cfg.c, Confirm, o.network, self, nonce, derived.value);
      if !compatible || confirm.None? {
        Fail();
        return;
      }
      terms, key, outgoing, confirms := o, derived.value, confirm.value, 1;
      Transmit(AwaitingDone, r, now);
    }

    /** A valid completion: the binding is stored, then activated. */
    method StoreBinding() returns (ok: bool, ghost ss: seq<State>, ghost es: seq<Event>)
      requires store.Valid() && terms.node == store.cfg.device
      requires Allowed(store.cfg, store.Memory(), store.Durable(), store.history, OpPrepare(CredentialOf(terms, key)))
      modifies store, store.records
      ensures store.Valid()
      ensures Stretch(store.cfg, ss, es, terms.node, terms.generation)
      ensures |ss| == |es| + 1 && ss[0] == old(store.Now()) && ss[|es|] == store.Now()
      ensures ok ==> InService(store.Memory(), CredentialOf(terms, key))
      ensures store.records.faults == old(store.records.faults) ==>
        Joinable(store.cfg, old(store.Now()), CredentialOf(terms, key)) ==> ok
    {
      hide SystemInv, StoreBytes.View, Stretch, Followed, Faultless, Allowed, Enrolled, InService, Joinable;
      ghost var first := store.Now();
      var x := CredentialOf(terms, key);
      var result;
      result, ss, es := PrepareFresh(store, x);
      if result != Ok {
        return false, ss, es;
      }
      ghost var before := store.Now();
      result := store.Activate(terms.node, terms.generation);
      ActivateOk(store.cfg, before, x, store.Now(), result);
      if store.records.faults == old(store.records.faults) && Joinable(store.cfg, first, x) {
        ActivateServes(store.cfg, before, x, store.Now(), result);
      }
      ghost var e := OneMore(store.cfg, ss, es, OpActivate(terms.node, terms.generation), store.Now(), result,
                             terms.node, terms.generation);
      ss, es := ss + [store.Now()], es + [e];
      StretchShape(store.cfg, ss, es, terms.node, terms.generation);
      ok := result == Ok;
      if !ok {
        var undone := store.RevokeGeneration(terms.node, terms.generation);
        e := OneMore(store.cfg, ss, es, OpRevoke(terms.node, terms.generation), store.Now(), undone,
                     terms.node, terms.generation);
        ss, es := ss + [store.Now()], es + [e];
        StretchShape(store.cfg, ss, es, terms.node, terms.generation);
      }
    }

    /** The listening part of `poll`: whether a valid completion arrived. */
    method Listen(r: Radio, now: u32) returns (done: bool)
      requires phase.Listening? || phase.AwaitingDone?
      modifies this
      ensures
        var d := Hears(agreement, store.cfg.c, old(Now()), store.Memory(), store.cfg.device, r, now);
        Now() == d.client && done == d.Store?
    {
      hide VerifyTagged, UntrustedType, OfferHeard;
      if r.heard.HearError? {
        Fail();
        return false;
      }
      if r.heard.Frame? {
        var kind := UntrustedType(r.heard.f);
        if phase.Listening? && kind == 4 {
          HandleOffer(r.heard.f, r, now);
          return false;
        }
        if phase.AwaitingDone? && kind == 6
           && VerifyTagged(store.cfg.c, r.heard.f, PairingType.Done, terms.network, store.cfg.device, nonce, key) {
          return true;
        }
      }
      if Elapsed(now, phaseAt) < LISTEN_MS {
        return false;
      }
      if phase.AwaitingDone? {
        if confirms >= CONFIRM_ATTEMPTS {
          Fail();
          return false;
        }
        confirms := confirms + 1;
        Transmit(AwaitingDone, r, now);
        return false;
      }
      afterSend := Listening;
      Wait(r, now);
      return false;
    }

    /** One poll; `sent` is the frame handed to the radio, if one is. */
    method Poll(r: Radio, now: u32) returns (sent: Option<Frame>, ghost ss: seq<State>, ghost es: seq<Event>)
      requires Valid()
      requires
        var d := Decide(agreement, store.cfg.c, Now(), store.Memory(), store.cfg.device, r, now);
        d.Store? ==>
          Allowed(store.cfg, store.Memory(), store.Durable(), store.history,
                  OpPrepare(CredentialOf(d.client.terms, d.client.key)))
      modifies this, store, store.records
      ensures Valid()
      ensures
        var d := Decide(agreement, store.cfg.c, old(Now()), old(store.Memory()), store.cfg.device, r, now);
        && Stretch(store.cfg, ss, es, d.client.terms.node, d.client.terms.generation)
        && |ss| == |es| + 1 && ss[0] == old(store.Now()) && ss[|es|] == store.Now()
        && (d.Stay? ==> es == [] && Now() == d.client)
        && (d.Store? ==>
              || (Now() == Ended(d.client, true)
                  && InService(store.Memory(), CredentialOf(d.client.terms, d.client.key)))
              || Now() == Ended(d.client, false))
        && (d.Store? && store.records.faults == old(store.records.faults)
            && Joinable(store.cfg, old(store.Now()), CredentialOf(d.client.terms, d.client.key)) ==>
              phase.InNetwork?)
      ensures sent == if old(phase).Checking? && Elapsed(now, old(startedAt)) < DEADLINE_MS && r.channel.Clear?
                      then Some(old(outgoing)) else None
    {
      hide SystemInv, StoreBytes.View, Stretch, Allowed, InService, ClientInv, Agreed, Decide, CredentialOf, TermsFit,
        WellFormed, Joinable;
      ghost var k := Now();
      ghost var d := Decide(agreement, store.cfg.c, k, store.Memory(), store.cfg.device, r, now);
      DecideKeeps(agreement, store.cfg.c, k, store.Memory(), store.cfg.device, r, now);
      EndedKeeps(agreement, store.cfg.c, d.client, store.cfg.device);
      PairingStore.Nothing(store.cfg, store.Now(), d.client.terms.node, d.client.terms.generation);
      ss, es := [store.Now()], [];
      var done;
      done, sent := Turn(r, now);
      if done {
        AgreedNode(agreement, store.cfg.c, k, store.cfg.device);
        var ok;
        ok, ss, es := StoreBinding();
        if !ok {
          Fail();
          return;
        }
        private, public, key, phase := ZERO32, ZERO32, ZERO16, InNetwork;
      }
    }

    /** Everything a poll does but storing the binding; whether that is due. */
    method Turn(r: Radio, now: u32) returns (done: bool, sent: Option<Frame>)
      modifies this
      ensures sent == if old(phase).Checking? && Elapsed(now, old(startedAt)) < DEADLINE_MS && r.channel.Clear?
                      then Some(old(outgoing)) else None
      ensures
        var d := Decide(agreement, store.cfg.c, old(Now()), store.Memory(), store.cfg.device, r, now);
        Now() == d.client && done == d.Store?
    {
      hide StoreBytes.View, Hears, CheckingPoll, SendingPoll;
      sent := None;
      if phase.Idle? || phase.InNetwork? || phase.Failure? {
        return false, None;
      }
      if Elapsed(now, startedAt) >= DEADLINE_MS {
        Fail();
        return false, None;
      }
      if phase.Checking? {
        sent := PollChannel(r, now);
      } else if phase.Sending? {
        PollSending(r, now);
      } else if phase.Waiting? {
        if Elapsed(now, phaseAt) >= waitMs {
          Transmit(afterSend, r, now);
        }
      } else {
        done := Listen(r, now);
        return;
      }
      return false, sent;
    }

    method PollChannel(r: Radio, now: u32) returns (sent: Option<Frame>)
      modifies this
      ensures Now() == CheckingPoll(old(Now()), r, now)
      ensures sent == if r.channel.Clear? then Some(old(outgoing)) else None
    {
      sent := None;
      if r.channel.ChannelError? || (r.channel.Pending? && Elapsed(now, phaseAt) >= TRANSMIT_TIMEOUT_MS) {
        Fail();
      } else if r.channel.Busy? {
        Wait(r, now);
      } else if r.channel.Clear? {
        phaseAt := now;
        sent := Some(outgoing);
        if !r.startsTransmit {
          Fail();
          return;
        }
        phase := Sending;
      }
    }

    method PollSending(r: Radio, now: u32)
      modifies this
      ensures Now() == SendingPoll(old(Now()), r, now)
    {
      if r.sent.SendError? || (r.sent.InFlight? && Elapsed(now, phaseAt) >= TRANSMIT_TIMEOUT_MS) {
        Fail();
      } else if r.sent.Complete? {
        phase, phaseAt := afterSend, now;
      }
    }
  }

  lemma EndedKeeps(x: Agreement, c: Crypto, k: Client, device: u64)
    ensures ClientInv(Ended(k, true), x, c, device) && ClientInv(Ended(k, false), x, c, device)
    ensures ClientInv(Fails(k), x, c, device)
  {
  }

  lemma AgreedNode(x: Agreement, c: Crypto, k: Client, device: u64)
    requires Agreed(k, x, c, device)
    ensures k.terms.node == device
  {
  }

  lemma ActivateServes(cfg: Config, s: State, x: Credential, t: State, result: Result)
    requires SystemInv(cfg, s.m, s.d, s.h) && Enrolled(s.m, x) && s.m.registry.revision < UINT64_MAX
    requires Faultless(cfg, s, OpActivate(x.node, x.generation), t, result)
    ensures result == Ok
  {
    hide SystemInv, Faultless;
    var i: nat :| i < BINDING_CAPACITY && Carries(s.m.registry.entries[i], x)
      && !s.m.registry.entries[i].state.Revoked?;
    assert Registered(s, x.node, x.generation, i);
    ActivateLaw(cfg, s, x.node, x.generation, t, result, i);
  }

  lemma ActivateOk(cfg: Config, s: State, x: Credential, t: State, result: Result)
    requires SystemInv(cfg, s.m, s.d, s.h) && Enrolled(s.m, x)
    requires Followed(cfg, s, OpActivate(x.node, x.generation), t, result)
    ensures result == Ok ==> InService(t.m, x)
  {
    if result == Ok {
      hide SystemInv, ActivatePlan, InService, Enrolled;
      FinishedOk(cfg, s, OpActivate(x.node, x.generation), t);
      ActivatePlanned(cfg, s, x.node, x.generation);
      ActivatedMeans(cfg, s, x);
    }
  }
}
