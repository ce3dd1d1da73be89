// The receiver's loop (cajui_application.cpp): under which binding a frame is tried, what is
// acknowledged, and how often a repeated sample is.
module Reception {
  import opened Protocol
  import opened Codec
  import opened Records
  import opened Store
  import opened StoreInvariant
  import opened StoreOps
  import opened StoreRuns
  import opened StoreObject
  import opened StoreLaws
  import opened Delivery
  import opened DeliveryRuns
  import opened Clocks
  import opened PairingStore
  import opened HostPairing
  import Limiter

  const ACK_TRANSMIT_TIMEOUT_MS := 3000

  datatype ReceiverState = Stopped | Listening | Acknowledging | Failed

  datatype Transmission = InProgress | TransmitComplete | TransmitError
  datatype Arrival = Nothing | Arrived(f: Frame, link: Link) | ReceiveError

  /** What the radio and the clock answer during one poll; the time is the true one. */
  datatype Air = Air(time: nat, transmission: Transmission, arrival: Arrival, startsTransmit: bool)

  // ------------------------------------------------------------------ the frame under the node's bindings

  /** The key decides nothing before decryption: the frame is tried under the next binding after this. */
  ghost predicate Undecrypted(c: Crypto, b: Binding, f: Frame) { Codec.Open(c, b, f) == Outcome.Failed(CryptoError) }

  /** The first of the bindings from `i` that the frame is not refused under for its key alone. */
  ghost function Deciding(c: Crypto, bs: seq<Binding>, f: Frame, i: nat): (r: Option<nat>)
    requires i <= |bs|
    ensures r.Some? ==> i <= r.value < |bs| && !Undecrypted(c, bs[r.value], f)
    ensures forall j | i <= j < (if r.Some? then r.value else |bs|) :: Undecrypted(c, bs[j], f)
    decreases |bs| - i
  {
    if i == |bs| then None else if Undecrypted(c, bs[i], f) then Deciding(c, bs, f, i + 1) else Some(i)
  }

  /** A frame is processed under the deciding binding, and under no other. */
  ghost predicate DataStep(cfg: Config, s: State, bs: seq<Binding>, f: Frame, link: Link, power: i8,
                           t: State, result: Result, ack: Frame)
  {
    match Deciding(cfg.c, bs, f, 0)
    case None => t == s && ack == [] && result == if bs == [] then Unauthorized else CryptoError
    case Some(k) => ReceiveStep(cfg, s, bs[k], f, link, power, t, result, ack) && result != CryptoError
  }

  /** No write failed while the frame was processed. */
  ghost predicate DataWhole(cfg: Config, s: State, bs: seq<Binding>, f: Frame, link: Link, power: i8, t: State,
                            result: Result)
  {
    match Deciding(cfg.c, bs, f, 0)
    case None => true
    case Some(k) => ReceivedWhole(cfg, s, bs[k], f, link, power, t, result)
  }

  /** The bindings a frame of the node is tried under are those of its active enrollments. */
  lemma {:induction false} BindingsIff(s: State, node: u64, n: nat)
    requires n <= BINDING_CAPACITY
    ensures forall b :: b in BindingsOf(s.m.registry, node, n) <==>
      b.node == node && exists i: nat :: i < n && Binds(s, b, i)
  {
    if n != 0 {
      BindingsIff(s, node, n - 1);
      forall b ensures b in BindingsOf(s.m.registry, node, n) <==>
          b.node == node && exists i: nat :: i < n && Binds(s, b, i)
      {
        var e := s.m.registry.entries[n - 1];
        var last := BindingOf(e, s.m.registry.network);
        if e.node == node && e.state.Active? {
          assert Binds(s, last, n - 1);
        }
        assert b in BindingsOf(s.m.registry, node, n)
          <==> b in BindingsOf(s.m.registry, node, n - 1) || (e.node == node && e.state.Active? && b == last);
        if b.node == node && Binds(s, b, n - 1) {
          assert b == last;
        }
      }
    }
  }

  /** The frame decrypts under no other active enrollment of the node. */
  ghost predicate OnlyUnder(c: Crypto, s: State, b: Binding, f: Frame)
  {
    forall x: Binding, i: nat | Binds(s, x, i) && x.node == b.node && x != b :: Undecrypted(c, x, f)
  }

  /**
   * A frame that opens as DATA under an active enrollment, and decrypts under no other of its
   * node, is processed under that one, whichever place it has in the list.
   */
  lemma HeardLaw(cfg: Config, s: State, b: Binding, i: nat, f: Frame, link: Link, power: i8, t: State, result: Result,
                 ack: Frame)
    requires Binds(s, b, i) && OnlyUnder(cfg.c, s, b, f)
    requires Codec.Open(cfg.c, b, f).Done? && Codec.Open(cfg.c, b, f).value.kind.DataKind?
    requires DataStep(cfg, s, BindingsOf(s.m.registry, UntrustedDataNode(f), BINDING_CAPACITY), f, link, power, t,
                      result, ack)
    ensures ReceiveStep(cfg, s, b, f, link, power, t, result, ack) && result != CryptoError
    ensures
      var bs := BindingsOf(s.m.registry, UntrustedDataNode(f), BINDING_CAPACITY);
      DataWhole(cfg, s, bs, f, link, power, t, result) <==> ReceivedWhole(cfg, s, b, f, link, power, t, result)
  {
    OpenedRoutes(cfg.c, b, f);
    BindingsIff(s, b.node, BINDING_CAPACITY);
    hide Codec.Open, ReceiveStep, ReceivedWhole, BindingsOf, Binds, UntrustedDataNode;
    var bs := BindingsOf(s.m.registry, b.node, BINDING_CAPACITY);
    assert b in bs;
    var k := Deciding(cfg.c, bs, f, 0);
    assert k.Some? && bs[k.value] in bs;
    assert bs[k.value] == b;
  }

  /** A frame that decrypts under no active enrollment of the node it names changes nothing and is not answered. */
  lemma UnheardLaw(cfg: Config, s: State, f: Frame, link: Link, power: i8, t: State, result: Result, ack: Frame)
    requires forall x: Binding, i: nat | Binds(s, x, i) && x.node == UntrustedDataNode(f) :: Undecrypted(cfg.c, x, f)
    requires DataStep(cfg, s, BindingsOf(s.m.registry, UntrustedDataNode(f), BINDING_CAPACITY), f, link, power, t,
                      result, ack)
    ensures t == s && ack == [] && (result == Unauthorized || result == CryptoError)
  {
    BindingsIff(s, UntrustedDataNode(f), BINDING_CAPACITY);
    hide Codec.Open, ReceiveStep, BindingsOf, Binds, UntrustedDataNode;
    var bs := BindingsOf(s.m.registry, UntrustedDataNode(f), BINDING_CAPACITY);
    assert forall x | x in bs :: Undecrypted(cfg.c, x, f);
  }

  lemma CommitNeverCrypto(cfg: Config, m: Mem, d: Disk, b: Binding, expected: u64, receipt: Receipt)
    ensures CommitPlan(cfg, m, d, b, expected, receipt).result != CryptoError
  {
    hide Acceptable, FrontHealth, Authorized, Superseding;
  }

  /** `receive` reports a cryptographic failure exactly when the frame does not decrypt; it then changed nothing. */
  lemma CryptoErrorIff(cfg: Config, s: State, b: Binding, f: Frame, link: Link, power: i8, t: State, result: Result,
                       ack: Frame)
    requires ReceiveStep(cfg, s, b, f, link, power, t, result, ack)
    ensures result == CryptoError <==> Undecrypted(cfg.c, b, f)
    ensures result == CryptoError ==> t == s && ack == []
  {
    match Judge(cfg, s.m, b, f, link, power)
    case Fresh(expected, receipt) =>
      hide Step, Codec.Open;
      CommitPlanned(cfg, s, b, expected, receipt);
      CommitNeverCrypto(cfg, s.m, s.d, b, expected, receipt);
    case _ =>
  }

  // ------------------------------------------------------------------ what was transmitted

  /** What an answer is for: a sample just accepted, one known before, or a pairing frame. */
  datatype Purpose = FirstAck(a: Accepted) | RepeatedAck(a: Accepted) | PairingReply

  /** One transmission the radio accepted. */
  datatype Sent = Sent(frame: Frame, purpose: Purpose, node: u64, time: nat)

  /** An acknowledgement is the one of a sample the store knows: in its log, or carried by a migration. */
  ghost predicate Durable(c: Crypto, h: History, x: Sent)
  {
    !x.purpose.PairingReply? ==>
      && Known(h, x.purpose.a) && 48 <= |x.purpose.a.frame|
      && x.frame == AckFrame(c, x.purpose.a) && x.node == x.purpose.a.node
  }

  predicate IsRepeat(x: Sent, node: u64, from: nat)
  {
    x.purpose.RepeatedAck? && x.node == node && from <= x.time < from + Limiter.WINDOW_MS
  }

  /** Repeated acknowledgements transmitted to the node in the minute from `from`. */
  function Repeats(sent: seq<Sent>, node: u64, from: nat): nat
  {
    if sent == [] then 0
    else Repeats(sent[..|sent| - 1], node, from) + if IsRepeat(sent[|sent| - 1], node, from) then 1 else 0
  }

  lemma OneMoreSent(sent: seq<Sent>, x: Sent, node: u64, from: nat)
    ensures Repeats(sent + [x], node, from) == Repeats(sent, node, from) + if IsRepeat(x, node, from) then 1 else 0
  {
    assert (sent + [x])[..|sent|] == sent;
  }

  /** No more repeats were transmitted than the limiter granted, in any minute. */
  ghost predicate WithinGrants(sent: seq<Sent>, grants: seq<Limiter.Grant>)
  {
    forall node: u64, from: nat :: Repeats(sent, node, from) <= Limiter.CountWhere(grants, Limiter.InMinute(node, from))
  }

  lemma GrantsGrow(sent: seq<Sent>, l: Limiter.Log, x: Limiter.Call)
    requires WithinGrants(sent, l.grants) && x.node != 0 && |l.starts| == BINDING_CAPACITY
    ensures WithinGrants(sent, Limiter.Called(l, x).grants)
  {
    var t := Limiter.Called(l, x);
    forall node: u64, from: nat
      ensures Repeats(sent, node, from) <= Limiter.CountWhere(t.grants, Limiter.InMinute(node, from))
    {
      if t.grants != l.grants {
        Limiter.CountMore(l.grants, t.grants[|l.grants|], Limiter.InMinute(node, from));
      }
    }
  }

  /** A granted repeat is counted on both sides. */
  lemma RepeatWithin(sent: seq<Sent>, l: Limiter.Log, x: Limiter.Call, y: Sent)
    requires WithinGrants(sent, l.grants) && x.node != 0 && |l.starts| == BINDING_CAPACITY
    requires Limiter.Allowed(l.slots, x.node, Reading32(x.time)).1
    requires y.node == x.node && y.time == x.time
    ensures WithinGrants(sent + [y], Limiter.Called(l, x).grants)
  {
    var t := Limiter.Called(l, x);
    forall node: u64, from: nat
      ensures Repeats(sent + [y], node, from) <= Limiter.CountWhere(t.grants, Limiter.InMinute(node, from))
    {
      OneMoreSent(sent, y, node, from);
      Limiter.CountMore(l.grants, t.grants[|l.grants|], Limiter.InMinute(node, from));
    }
  }

  lemma OtherWithin(sent: seq<Sent>, grants: seq<Limiter.Grant>, y: Sent)
    requires WithinGrants(sent, grants) && !y.purpose.RepeatedAck?
    ensures WithinGrants(sent + [y], grants)
  {
    forall node: u64, from: nat
      ensures Repeats(sent + [y], node, from) <= Limiter.CountWhere(grants, Limiter.InMinute(node, from))
    {
      OneMoreSent(sent, y, node, from);
    }
  }

  // ------------------------------------------------------------------ what an answer is for

  /** A first acknowledgement is of the sample just appended to the log. */
  lemma FreshAnswered(cfg: Config, s: State, b: Binding, f: Frame, link: Link, power: i8, t: State, ack: Frame)
    requires SystemInv(cfg, s.m, s.d, s.h) && ReceiveStep(cfg, s, b, f, link, power, t, Ok, ack)
    ensures |t.h.log| == |s.h.log| + 1 && s.h.log <= t.h.log && t.h.origin == s.h.origin
    ensures Known(t.h, t.h.log[|s.h.log|])
    ensures
      var a := t.h.log[|s.h.log|];
      48 <= |a.frame| && a.frame == f && OwnerOf(a) == b && ack == AckFrame(cfg.c, a)
  {
    hide Codec.Open, SystemInv, Followed, SealFrame, AcceptedBy;
    FreshOnly(cfg, s, b, f, link, power, t, ack);
    var v := Judge(cfg, s.m, b, f, link, power);
    FreshAccepted(Setup(cfg, cfg, {}), World(s, s, IDLE_SENDER, {}), b, f, link, power);
    CommitEffect(cfg, s, b, v.expected, v.receipt, t, Ok);
    assert t.h.log == s.h.log + [AcceptedBy(s.m, Authorized(s.m, b).value, v.receipt)];
    BaseReached(cfg, s);
  }

  lemma FreshOnly(cfg: Config, s: State, b: Binding, f: Frame, link: Link, power: i8, t: State, ack: Frame)
    requires ReceiveStep(cfg, s, b, f, link, power, t, Ok, ack)
    ensures Judge(cfg, s.m, b, f, link, power).Fresh?
  {
    OpenNeverOk(cfg.c, b, f);
  }

  lemma OpenNeverOk(c: Crypto, b: Binding, f: Frame)
    ensures Codec.Open(c, b, f) != Outcome.Failed(Ok) && Codec.Open(c, b, f) != Outcome.Failed(Duplicate)
  {
  }

  /** A repeated acknowledgement is of the known sample whose frame was received again. */
  lemma RepeatAnswered(cfg: Config, s: State, b: Binding, f: Frame, link: Link, power: i8, t: State, ack: Frame)
    returns (a: Accepted)
    requires SystemInv(cfg, s.m, s.d, s.h) && ReceiveStep(cfg, s, b, f, link, power, t, Duplicate, ack)
    ensures t == s && Known(s.h, a) && 48 <= |a.frame| && a.frame == f && OwnerOf(a) == b && ack == AckFrame(cfg.c, a)
  {
    hide Codec.Open, SystemInv, SealFrame, Judge, ReceiveStep, Authorized, AckMessage, Known;
    RepeatOnly(cfg, s, b, f, link, power, t, ack);
    RepeatSlot(cfg, s, b, f, link, power);
    a := ReceiptTells(cfg, s, Authorized(s.m, b).value);
  }

  lemma RepeatOnly(cfg: Config, s: State, b: Binding, f: Frame, link: Link, power: i8, t: State, ack: Frame)
    requires ReceiveStep(cfg, s, b, f, link, power, t, Duplicate, ack)
    ensures Judge(cfg, s.m, b, f, link, power).Repeat? && t == s && 48 <= |f|
    ensures
      var r := Judge(cfg, s.m, b, f, link, power).stored;
      ack == SealFrame(cfg.c, b, AckMessage(f, r.counter, r.ackPower))
  {
    OpenNeverOk(cfg.c, b, f);
    var v := Judge(cfg, s.m, b, f, link, power);
    hide Codec.Open, Followed, SealFrame;
    if v.Fresh? {
      CommitNeverDuplicate(cfg, s, b, v.expected, v.receipt, t);
    }
  }

  lemma CommitNeverDuplicate(cfg: Config, s: State, b: Binding, expected: u64, receipt: Receipt, t: State)
    ensures !Followed(cfg, s, OpCommit(b, expected, receipt), t, Duplicate)
  {
    CommitPlanned(cfg, s, b, expected, receipt);
    hide Acceptable, FrontHealth, Authorized, Superseding, Step;
  }

  /** The answer is for the sample with the received frame: the one just accepted, or one known. */
  ghost predicate Answers(purpose: Purpose, f: Frame, result: Result, accepted: nat, h: History)
  {
    if result == Ok then purpose.FirstAck? && purpose.a.frame == f && accepted < |h.log| && h.log[accepted] == purpose.a
    else purpose.RepeatedAck? && purpose.a.frame == f
  }

  /**
   * A processed DATA frame: an accepted sample is acknowledged, first of all; a repeated one
   * exactly when the limiter, asked once and for nothing else, grants it; nothing else is
   * transmitted. A storage failure, or a radio that refuses, ends the loop.
   */
  ghost predicate DataAnswered(f: Frame, result: Result, ack: Frame, state: ReceiverState, accepted: nat, h: History,
                               air: Air, was: seq<Sent>, sent: seq<Sent>, before: seq<Limiter.Call>,
                               calls: seq<Limiter.Call>)
  {
    && (if result == Duplicate then
          && UntrustedDataNode(f) != 0 && calls == before + [Limiter.Call(UntrustedDataNode(f), air.time)]
          && Limiter.InOrder(before) && Limiter.InOrder(calls)
          && state == if Limiter.RunOf(calls).grants == Limiter.RunOf(before).grants then Listening
                      else if air.startsTransmit then Acknowledging else ReceiverState.Failed
        else calls == before)
    && (if state.Acknowledging? then
          && |sent| == |was| + 1 && sent[..|was|] == was && sent[|was|].frame == ack && sent[|was|].time == air.time
          && (result == Ok || result == Duplicate) && Answers(sent[|was|].purpose, f, result, accepted, h)
        else sent == was)
    && (result == Ok ==> state == if air.startsTransmit then Acknowledging else ReceiverState.Failed)
    && (result == StorageError ==> state.Failed?)
    && (result != Ok && result != Duplicate && result != StorageError ==> state.Listening?)
  }

  /**
   * A pairing frame: the host reacts as specified, and its answer, if any, goes to the radio. A
   * confirmation is answered once its binding is in service, and otherwise leaves the offer open.
   */
  ghost predicate PairingAnswered(c: Crypto, device: u64, h: Host, f: Frame, rssi: i16, air: Air, t: Host, m: Mem,
                                  ack: Frame, state: ReceiverState)
  {
    var r := React(c, device, h, f, rssi, Reading32(air.time));
    var handed := if air.startsTransmit then Acknowledging else ReceiverState.Failed;
    match r
    case Silent(g) => t == g && state.Listening?
    case Reply(g, reply) => t == g && ack == reply && state == handed
    case Confirmed(g) =>
      if state.Listening? then t == g
      else
        && t == Completes(c, g, Reading32(air.time)) && ack == t.last.done && state == handed
        && InService(m, CredentialOf(g.offer, g.key))
  }

  /** The frame confirms the offer, whose binding the store can take. */
  ghost predicate CanConfirm(cfg: Config, s: State, h: Host, f: Frame, rssi: i16, air: Air)
  {
    var r := React(cfg.c, cfg.device, h, f, rssi, Reading32(air.time));
    r.Confirmed? && CanStore(cfg, s, CredentialOf(r.host.offer, r.host.key))
  }

  lemma PairingIsNoAck(c: Crypto, h: History, f: Frame, time: nat)
    ensures Durable(c, h, Sent(f, PairingReply, 0, time))
  {
  }

  function RssiOf(l: Link): i16 { if l.known then l.rssiDbm else 0 }

  /** Storing the binding under offer, if the frame confirms it, is allowed. */
  ghost predicate MayStore(p: PairingHost, f: Frame, rssi: i16, now: u32)
    reads p, p.store, p.store.records
  {
    var r := React(p.store.cfg.c, p.store.cfg.device, p.Now(), f, rssi, now);
    r.Confirmed? ==>
      Allowed(p.store.cfg, p.store.Memory(), p.store.Durable(), p.store.history,
              OpPrepare(CredentialOf(r.host.offer, r.host.key)))
  }

  /** Pairing accepts no sample. */
  lemma {:induction false} StretchKeepsLog(cfg: Config, ss: seq<State>, es: seq<Event>, node: u64, generation: u64,
                                           n: nat)
    requires Stretch(cfg, ss, es, node, generation) && n < |ss| && SystemInv(cfg, ss[0].m, ss[0].d, ss[0].h)
    ensures SystemInv(cfg, ss[n].m, ss[n].d, ss[n].h) && ss[n].h.log == ss[0].h.log && ss[n].h.origin == ss[0].h.origin
  {
    hide SystemInv, Step;
    if n != 0 {
      StretchKeepsLog(cfg, ss, es, node, generation, n - 1);
      assert Step(cfg, ss[n - 1], es[n - 1], ss[n]) && Gentle(ss[n - 1], es[n - 1].op, node, generation);
      StepKeeps(cfg, ss[n - 1], es[n - 1], ss[n]);
      LogKept(cfg, ss[n - 1], es[n - 1], ss[n]);
    }
  }

  lemma BindingsAreTheNodes(reg: Registry, node: u64)
    ensures forall b | b in BindingsOf(reg, node, BINDING_CAPACITY) :: b.node == node
  {
    BindingsCounted(reg, node, BINDING_CAPACITY);
  }

  /** Processing a frame only ever extends the log. */
  lemma LogExtends(cfg: Config, s: State, bs: seq<Binding>, f: Frame, link: Link, power: i8, t: State, result: Result,
                   ack: Frame)
    requires SystemInv(cfg, s.m, s.d, s.h) && DataStep(cfg, s, bs, f, link, power, t, result, ack)
    ensures s.h.log <= t.h.log && s.h.origin == t.h.origin
  {
    hide SystemInv, Codec.Open, Followed, SealFrame, AcceptedBy, Deciding;
    if Deciding(cfg.c, bs, f, 0).Some? {
      var b := bs[Deciding(cfg.c, bs, f, 0).value];
      var v := Judge(cfg, s.m, b, f, link, power);
      if v.Fresh? {
        CommitEffect(cfg, s, b, v.expected, v.receipt, t, result);
      }
    }
  }

  lemma StillDurable(c: Crypto, h: History, t: History, sent: seq<Sent>)
    requires h.log <= t.log && h.origin == t.origin && forall x | x in sent :: Durable(c, h, x)
    ensures forall x | x in sent :: Durable(c, t, x)
  {
    hide Known, AckFrame;
    KnownGrows(h, t);
  }

  /** What the answer to a frame is for: the sample with that very frame. */
  lemma PurposeOf(cfg: Config, s: State, bs: seq<Binding>, f: Frame, link: Link, power: i8, t: State, result: Result,
                  ack: Frame,
                  node: u64, time: nat) returns (purpose: Purpose)
    requires SystemInv(cfg, s.m, s.d, s.h) && DataStep(cfg, s, bs, f, link, power, t, result, ack)
    requires result == Ok || result == Duplicate
    requires forall b | b in bs :: b.node == node
    ensures Durable(cfg.c, t.h, Sent(ack, purpose, node, time)) && Answers(purpose, f, result, |s.h.log|, t.h)
    ensures bs != []
  {
    hide SystemInv, Codec.Open, ReceiveStep, Deciding, AckFrame, Known;
    var b := bs[Deciding(cfg.c, bs, f, 0).value];
    if result == Ok {
      FreshAnswered(cfg, s, b, f, link, power, t, ack);
      purpose := FirstAck(t.h.log[|s.h.log|]);
    } else {
      var a := RepeatAnswered(cfg, s, b, f, link, power, t, ack);
      purpose := RepeatedAck(a);
    }
  }

  // ------------------------------------------------------------------ the controller

  class ReceiverController {
    const store: PersistentStore
    const pairing: PairingHost?
    const duplicates: Limiter.DuplicateAckLimiter
    var state: ReceiverState
    var ack: Frame
    var result: Result
    var link: Link
    var node: u64
    var power: i8
    var data: bool
    var startedAt: u32
    /** Every transmission, every call of the limiter, and the true time; not stored. */
    ghost var sent: seq<Sent>
    ghost var calls: seq<Limiter.Call>
    ghost var now: nat

    ghost predicate StoreValid()
      reads this`state, store, store.records, pairing
    {
      && store.Valid() && (state.Listening? || state.Acknowledging? ==> store.cfg.role.Receiver?)
      && (pairing != null ==> pairing.store == store && pairing.Valid())
    }

    ghost predicate LimiterValid()
      reads this`sent, this`calls, this`now, duplicates
    {
      && Limiter.InOrder(calls) && duplicates.slots == Limiter.RunOf(calls).slots
      && (calls != [] ==> calls[|calls| - 1].time <= now)
      && WithinGrants(sent, Limiter.RunOf(calls).grants)
    }

    /** Every acknowledgement on the air was of a durable sample, and repeats stayed within the grants. */
    ghost predicate Valid()
      reads this, store, store.records, pairing, duplicates
    {
      && StoreValid() && LimiterValid()
      && (forall x | x in sent :: Durable(store.cfg.c, store.history, x))
      && OnAir()
    }

    /** The answer on the air is the last one transmitted. */
    ghost predicate OnAir()
      reads this`state, this`sent, this`startedAt, this`now
    {
      state.Acknowledging? ==>
        sent != [] && sent[|sent| - 1].time <= now && startedAt == Reading32(sent[|sent| - 1].time)
    }

    constructor (s: PersistentStore, p: PairingHost?, l: Limiter.DuplicateAckLimiter)
      requires s.Valid() && (p != null ==> p.store == s && p.Valid()) && l.slots == Limiter.FreeSlots()
      ensures Valid() && store == s && pairing == p && duplicates == l && state.Stopped? && sent == []
    {
      store, pairing, duplicates := s, p, l;
      state, ack, result, link, node, power, data, startedAt := Stopped, [], NotFound, UNKNOWN_LINK, 0, KEEP_POWER,
        false, 0;
      sent, calls, now := [], [], 0;
    }

    method Start(listens: bool) returns (ok: bool)
      requires Valid()
      modifies this`state
      ensures Valid() && (ok <==> old(state).Stopped? && store.health == Ready && store.cfg.role.Receiver? && listens)
      ensures ok ==> state.Listening?
    {
      hide SystemInv, StoreBytes.View, Durable, WithinGrants, HostInv, Limiter.RunOf, Limiter.InOrder;
      if !state.Stopped? {
        return false;
      }
      if store.health != Ready || !store.cfg.role.Receiver? || !listens {
        state := ReceiverState.Failed;
        return false;
      }
      state := Listening;
      return true;
    }

    /** Hands an answer to the radio; a refusal ends the loop. */
    method Answer(reply: Frame, ghost purpose: Purpose, ghost receiver: u64, air: Air)
      requires Valid() && air.time == now && state.Listening?
      requires Durable(store.cfg.c, store.history, Sent(reply, purpose, receiver, air.time))
      requires WithinGrants(sent + [Sent(reply, purpose, receiver, air.time)], Limiter.RunOf(calls).grants)
      modifies this`state, this`startedAt, this`sent
      ensures Valid() && startedAt == Reading32(air.time)
      ensures state == if air.startsTransmit then Acknowledging else ReceiverState.Failed
      ensures sent == if air.startsTransmit then old(sent) + [Sent(reply, purpose, receiver, air.time)] else old(sent)
    {
      hide SystemInv, StoreBytes.View, Durable, WithinGrants, HostInv, Limiter.RunOf, Limiter.InOrder;
      startedAt := Reading32(air.time);
      if !air.startsTransmit {
        state := ReceiverState.Failed;
        return;
      }
      sent := sent + [Sent(reply, purpose, receiver, air.time)];
      state := Acknowledging;
    }

    /** Asks the limiter at the present time. */
    method Grant(to: u64, air: Air) returns (granted: bool)
      requires Valid() && air.time == now && to != 0
      modifies this`calls, duplicates
      ensures Valid() && calls == old(calls) + [Limiter.Call(to, air.time)]
      ensures granted <==> Limiter.RunOf(calls).grants != Limiter.RunOf(old(calls)).grants
      ensures granted ==> forall reply, purpose ::
        WithinGrants(sent + [Sent(reply, purpose, to, air.time)], Limiter.RunOf(calls).grants)
    {
      hide SystemInv, StoreBytes.View, Durable, WithinGrants, HostInv, Limiter.Called, Limiter.Allowed, Limiter.RunOf,
        Limiter.LogInv;
      ghost var x := Limiter.Call(to, air.time);
      ghost var l := Limiter.RunOf(calls);
      granted := duplicates.Allow(to, Reading32(air.time));
      ghost var before := calls;
      calls := calls + [x];
      Limiter.OneMore(before, x);
      Limiter.GrantedAdds(l, x);
      Limiter.CalledSlots(l, x);
      GrantsGrow(sent, l, x);
      if granted {
        forall reply, purpose
          ensures WithinGrants(sent + [Sent(reply, purpose, to, air.time)], Limiter.RunOf(calls).grants)
        {
          RepeatWithin(sent, l, x, Sent(reply, purpose, to, air.time));
        }
      }
    }

    /** Tries the frame under each binding until one decides; at most one call changes the store. */
    method TryBindings(bs: seq<Binding>, f: Frame, l: Link) returns (outcome: Result, reply: Frame)
      requires store.Valid() && |store.history.log| < UINT64_MAX
      modifies store, store.records
      ensures store.Valid()
      ensures DataStep(store.cfg, old(store.Now()), bs, f, l, power, store.Now(), outcome, reply)
      ensures store.records.faults == old(store.records.faults) ==>
        DataWhole(store.cfg, old(store.Now()), bs, f, l, power, store.Now(), outcome)
    {
      hide SystemInv, StoreBytes.View, ReceiveStep, ReceivedWhole, Undecrypted;
      outcome, reply := Unauthorized, [];
      ghost var c := store.cfg.c;
      for i := 0 to |bs|
        invariant store.Valid() && store.Now() == old(store.Now()) && reply == []
        invariant Deciding(c, bs, f, 0) == Deciding(c, bs, f, i)
        invariant outcome == if i == 0 then Unauthorized else CryptoError
        invariant store.records.faults >= old(store.records.faults)
      {
        outcome, reply := Receive(store, bs[i], f, l, power);
        CryptoErrorIff(store.cfg, old(store.Now()), bs[i], f, l, power, store.Now(), outcome, reply);
        if outcome != CryptoError {
          return;
        }
      }
    }

    /** The bindings a DATA frame is tried under: those of the node it names. */
    ghost function Tried(f: Frame): seq<Binding>
      reads this, store
    {
      if UntrustedDataNode(f) == 0 || store.health != Ready then []
      else BindingsOf(store.registry, UntrustedDataNode(f), BINDING_CAPACITY)
    }

    /** Transmits the acknowledgement in `ack`, a repeated one only when the limiter grants it. */
    method Acknowledge(to: u64, ghost purpose: Purpose, air: Air)
      requires Valid() && air.time == now && state.Listening? && to != 0
      requires result == Duplicate || purpose.FirstAck?
      requires Durable(store.cfg.c, store.history, Sent(ack, purpose, to, air.time))
      modifies this`state, this`startedAt, this`sent, this`node, this`calls, duplicates
      ensures Valid()
      ensures sent == if state.Acknowledging? then old(sent) + [Sent(ack, purpose, to, air.time)] else old(sent)
      ensures result != Duplicate ==>
        calls == old(calls) && state == if air.startsTransmit then Acknowledging else ReceiverState.Failed
      ensures result == Duplicate ==>
        && calls == old(calls) + [Limiter.Call(to, air.time)]
        && state == if Limiter.RunOf(calls).grants == Limiter.RunOf(old(calls)).grants then Listening
                    else if air.startsTransmit then Acknowledging else ReceiverState.Failed
      ensures !state.Stopped?
    {
      hide SystemInv, StoreBytes.View, Durable, WithinGrants, HostInv, Limiter.RunOf;
      if result == Duplicate {
        var granted := Grant(to, air);
        if !granted {
          return;
        }
      } else {
        OtherWithin(sent, Limiter.RunOf(calls).grants, Sent(ack, purpose, to, air.time));
      }
      node := to;
      Answer(ack, purpose, to, air);
    }

    /** A DATA frame: stored and acknowledged once, acknowledged again within the limit, or dropped. */
    method HearData(f: Frame, l: Link, air: Air)
      requires Valid() && air.time == now && state.Listening? && |store.history.log| < UINT64_MAX
      modifies this, store, store.records, duplicates
      ensures Valid() && now == old(now) && power == old(power)
      ensures DataStep(store.cfg, old(store.Now()), old(Tried(f)), f, l, power, store.Now(), result, ack)
      ensures store.records.faults == old(store.records.faults) ==>
        DataWhole(store.cfg, old(store.Now()), old(Tried(f)), f, l, power, store.Now(), result)
      ensures DataAnswered(f, result, ack, state, old(|store.history.log|), store.history, air, old(sent), sent,
                           old(calls), calls)
      ensures state.Acknowledging? ==>
        |sent| == |old(sent)| + 1 && sent[..|old(sent)|] == old(sent) && sent[|old(sent)|].frame == ack
      ensures !state.Acknowledging? ==> sent == old(sent)
    {
      hide SystemInv, StoreBytes.View, Durable, HostInv, DataStep, DataWhole, UntrustedDataNode, BindingsOf,
        LimiterValid, DataAnswered;
      ghost var s := store.Now();
      var to := UntrustedDataNode(f);
      var bs := [];
      if to != 0 {
        bs := store.Bindings(to);
      }
      link, data := l, true;
      result, ack := TryBindings(bs, f, l);
      BindingsAreTheNodes(s.m.registry, to);
      ConcludeData(bs, f, to, air, s);
    }

    /** What follows from the outcome in `result` and `ack`. */
    method ConcludeData(bs: seq<Binding>, f: Frame, to: u64, air: Air, ghost s: State)
      requires StoreValid() && LimiterValid() && forall x | x in sent :: Durable(store.cfg.c, s.h, x)
      requires air.time == now && state.Listening? && SystemInv(store.cfg, s.m, s.d, s.h)
      requires DataStep(store.cfg, s, bs, f, link, power, store.Now(), result, ack)
      requires (forall b | b in bs :: b.node == to) && (bs != [] ==> to != 0) && to == UntrustedDataNode(f)
      modifies this`state, this`startedAt, this`sent, this`node, this`calls, duplicates
      ensures Valid()
      ensures DataAnswered(f, result, ack, state, |s.h.log|, store.history, air, old(sent), sent, old(calls), calls)
      ensures state.Acknowledging? ==>
        |sent| == |old(sent)| + 1 && sent[..|old(sent)|] == old(sent) && sent[|old(sent)|].frame == ack
      ensures !state.Acknowledging? ==> sent == old(sent)
    {
      hide SystemInv, StoreBytes.View, Durable, HostInv, DataStep, WithinGrants, Limiter.RunOf, Limiter.InOrder;
      LogExtends(store.cfg, s, bs, f, link, power, store.Now(), result, ack);
      StillDurable(store.cfg.c, s.h, store.history, sent);
      if result == StorageError {
        state := ReceiverState.Failed;
        return;
      }
      if result != Ok && result != Duplicate {
        return;
      }
      ghost var purpose := PurposeOf(store.cfg, s, bs, f, link, power, store.Now(), result, ack, to, air.time);
      Acknowledge(to, purpose, air);
    }

    lemma PairingWithin(reply: Frame, time: nat)
      requires LimiterValid()
      ensures WithinGrants(sent + [Sent(reply, PairingReply, 0, time)], Limiter.RunOf(calls).grants)
    {
      hide WithinGrants, Limiter.RunOf;
      OtherWithin(sent, Limiter.RunOf(calls).grants, Sent(reply, PairingReply, 0, time));
    }

    /** A pairing frame: handed to the host, whose answer is transmitted. */
    method HearPairing(f: Frame, l: Link, air: Air)
      requires Valid() && air.time == now && state.Listening?
      requires pairing != null ==> MayStore(pairing, f, RssiOf(l), Reading32(air.time))
      modifies this`state, this`startedAt, this`sent, this`data, this`ack, pairing, store, store.records
      ensures Valid() && store.history.log == old(store.history.log)
      ensures pairing == null ==> state == old(state) && sent == old(sent) && store.Now() == old(store.Now())
      ensures sent == if state.Acknowledging? then old(sent) + [Sent(ack, PairingReply, 0, air.time)] else old(sent)
      ensures state.Acknowledging? ==> !data
      ensures !state.Stopped?
      ensures pairing != null ==>
        && PairingAnswered(store.cfg.c, store.cfg.device, old(pairing.Now()), f, RssiOf(l), air, pairing.Now(),
                           store.Memory(), ack, state)
        && (store.records.faults == old(store.records.faults) ==>
              CanConfirm(store.cfg, old(store.Now()), old(pairing.Now()), f, RssiOf(l), air) ==> !state.Listening?)
    {
      hide SystemInv, StoreBytes.View, Durable, WithinGrants, LimiterValid, Limiter.RunOf, React, Stretch, Completes,
        InService, StoreOps.Allowed, PairingHost.Valid, CanStore;
      if pairing == null {
        return;
      }
      ghost var r := React(store.cfg.c, store.cfg.device, pairing.Now(), f, RssiOf(l), Reading32(air.time));
      var reply;
      ghost var ss, es;
      reply, ss, es := pairing.Handle(f, RssiOf(l), Reading32(air.time));
      StretchKeepsLog(store.cfg, ss, es, r.host.offer.node, r.host.offer.generation, |es|);
      StillDurable(store.cfg.c, ss[0].h, store.history, sent);
      if reply.None? {
        return;
      }
      data := false;
      ack := reply.value;
      PairingWithin(ack, air.time);
      assert Durable(store.cfg.c, store.history, Sent(ack, PairingReply, 0, air.time)) by {
        PairingIsNoAck(store.cfg.c, store.history, ack, air.time);
      }
      Answer(ack, PairingReply, 0, air);
    }

    /** While an answer is on the air: completion wins over the watchdog, and nothing is received. */
    method AwaitTransmission(air: Air)
      requires Valid() && state.Acknowledging? && air.time == now
      modifies this`state
      ensures Valid() && !state.Stopped?
      ensures air.time < Began() + 0x1_0000_0000 ==>
        state == match air.transmission {
          case TransmitComplete => Listening
          case TransmitError => ReceiverState.Failed
          case InProgress => if air.time < Began() + 3000 then Acknowledging else ReceiverState.Failed
        }
    {
      hide SystemInv, StoreBytes.View, Durable, WithinGrants, HostInv, Limiter.RunOf, Limiter.InOrder, Elapsed;
      if air.time < Began() + 0x1_0000_0000 {
        ElapsedTrue(Began(), air.time);
      }
      if air.transmission.TransmitComplete? {
        state := Listening;
      } else if air.transmission.TransmitError? || Elapsed(Reading32(air.time), startedAt) >= ACK_TRANSMIT_TIMEOUT_MS {
        state := ReceiverState.Failed;
      }
    }

    /** When the last answer went on the air, in true time. */
    ghost function Began(): nat
      reads this`sent
    {
      if sent == [] then 0 else sent[|sent| - 1].time
    }

    /** A pairing frame arrived while the loop listens. */
    predicate Pairs(air: Air)
      reads this`state
    {
      state.Listening? && air.arrival.Arrived? && 3 <= UntrustedType(air.arrival.f) <= 6
    }

    /**
     * One poll. A frame is received only while listening; every acknowledgement it puts on the
     * air is of a sample already durable, and a stopped or failed loop stays as it is.
     */
    method Poll(air: Air)
      requires Valid() && now <= air.time && |store.history.log| < UINT64_MAX
      requires pairing != null && air.arrival.Arrived? && 3 <= UntrustedType(air.arrival.f) <= 6 ==>
        MayStore(pairing, air.arrival.f, RssiOf(air.arrival.link), Reading32(air.time))
      modifies this, store, store.records, duplicates, pairing
      ensures Valid() && now == air.time
      ensures !old(state).Listening? ==> sent == old(sent) && store.Now() == old(store.Now())
      ensures old(state).Stopped? || old(state).Failed? ==> state == old(state)
      ensures old(state).Acknowledging? && air.time < old(Began()) + 0x1_0000_0000 ==>
        state == match air.transmission {
          case TransmitComplete => Listening
          case TransmitError => ReceiverState.Failed
          case InProgress => if air.time < old(Began()) + 3000 then Acknowledging else ReceiverState.Failed
        }
      ensures old(state).Listening? && !air.arrival.Arrived? ==>
        && sent == old(sent) && store.Now() == old(store.Now())
        && state == if air.arrival.ReceiveError? then ReceiverState.Failed else Listening
      ensures old(state).Listening? && state.Acknowledging? ==>
        |sent| == |old(sent)| + 1 && sent[..|old(sent)|] == old(sent) && sent[|old(sent)|].frame == ack
      ensures !state.Acknowledging? ==> sent == old(sent)
      ensures old(state).Listening? && air.arrival.Arrived? && !(3 <= UntrustedType(air.arrival.f) <= 6) ==>
        && DataStep(store.cfg, old(store.Now()), old(Tried(air.arrival.f)), air.arrival.f, air.arrival.link, power,
                    store.Now(), result, ack)
        && DataAnswered(air.arrival.f, result, ack, state, old(|store.history.log|), store.history, air, old(sent),
                        sent, old(calls), calls)
        && (store.records.faults == old(store.records.faults) ==>
              DataWhole(store.cfg, old(store.Now()), old(Tried(air.arrival.f)), air.arrival.f, air.arrival.link, power,
                        store.Now(), result))
      ensures pairing != null && old(Pairs(air)) ==>
        && PairingAnswered(store.cfg.c, store.cfg.device, old(pairing.Now()), air.arrival.f, RssiOf(air.arrival.link),
                           air, pairing.Now(), store.Memory(), ack, state)
        && (store.records.faults == old(store.records.faults) ==>
              CanConfirm(store.cfg, old(store.Now()), old(pairing.Now()), air.arrival.f, RssiOf(air.arrival.link), air)
              ==> !state.Listening?)
      ensures pairing != null && !old(Pairs(air)) ==> pairing.Now() == old(pairing.Now())
      ensures pairing == null && old(Pairs(air)) ==>
        state == old(state) && sent == old(sent) && store.Now() == old(store.Now())
    {
      hide PairingAnswered, DataAnswered, SystemInv, StoreBytes.View, Durable, HostInv, DataStep, DataWhole,
        UntrustedDataNode, UntrustedType, BindingsOf, WithinGrants, CanConfirm,
        Limiter.RunOf, Limiter.InOrder, React, StoreOps.Allowed;
      now := air.time;
      match state {
        case Acknowledging => AwaitTransmission(air);
        case Listening =>
          match air.arrival {
            case Nothing =>
            case ReceiveError => state := ReceiverState.Failed;
            case Arrived(f, l) =>
              if 3 <= UntrustedType(f) <= 6 {
                HearPairing(f, l, air);
              } else {
                HearData(f, l, air);
              }
          }
        case _ =>
      }
    }
  }

  /**
   * Whatever frames arrive and whenever the loop polls, no node is sent more than five repeated
   * acknowledgements in any minute.
   */
  lemma RepeatsBounded(r: ReceiverController, to: u64, from: nat)
    requires r.Valid()
    ensures Repeats(r.sent, to, from) <= 5
  {
    hide SystemInv, StoreBytes.View, Durable, HostInv;
    Limiter.AtMostFiveAMinute(r.calls, to, from);
  }

  /**
   * Every acknowledgement the loop ever transmitted is the one of a sample the store knows, and
   * the store knows exactly its log since any migration and the receipts that carried over.
   */
  lemma AcknowledgedIsDurable(r: ReceiverController, i: nat)
    requires r.Valid() && i < |r.sent| && !r.sent[i].purpose.PairingReply?
    ensures
      var a, h := r.sent[i].purpose.a, r.store.history;
      && 48 <= |a.frame| && r.sent[i].frame == AckFrame(r.store.cfg.c, a) && r.sent[i].node == a.node
      && (h.origin == NEW_DEVICE ==> a in h.log)
      && (a !in h.origin.carried ==> exists k :: h.origin.base <= k < |h.log| && h.log[k] == a)
  {
    hide SystemInv, StoreBytes.View, HostInv;
    assert Durable(r.store.cfg.c, r.store.history, r.sent[i]);
  }
}
