// A node joining over an honest channel: request, click, offer, confirmation and completion, until both
// devices are paired under one credential.
module JoinRuns {
  import opened Protocol
  import opened Codec
  import opened Records
  import opened Store
  import opened StoreInvariant
  import opened StoreOps
  import opened StoreRuns
  import opened StoreObject
  import opened StoreLaws
  import StoreLimitRuns
  import opened Delivery
  import opened DeliveryRuns
  import opened Pairing
  import opened PairingStore
  import opened HostPairing
  import opened ClientPairing
  import opened PairingRuns
  import opened PairingLaws
  import opened Clocks

  /** A radio that does what it is asked, over a clear channel. */
  function Good(h: Heard): Radio { Radio(true, Clear, true, Complete, h, Some(200)) }

  /** The numbers both sides draw, what they agree on, and the three frames they authenticate. */
  datatype Exchange = Exchange(
    nodePrivate: XKey, nodePublic: XKey, nonce: u64, draw: Draw, offer: Terms, key: Key)

  function MarksOf(e: Exchange): set<Mark>
  {
    {Mark(e.key, Offer, e.offer, e.nodePublic), Mark(e.key, Confirm, e.offer, e.nodePublic),
     Mark(e.key, PairingType.Done, e.offer, e.nodePublic)}
  }

  /** The terms and the key are those the two sides arrive at. */
  ghost predicate ExchangeFits(u: Setup, x: Agreement, s: System, e: Exchange)
  {
    && x.public(e.nodePrivate) == Some(e.nodePublic) && Nonzero(e.nodePublic) && e.nonce != 0
    && Draws(x, s.w.rx.m, e.draw) && Nonzero(x.public(e.draw.private.value).value)
    && x.shared(e.draw.private.value, e.nodePublic).Some?
    && e.offer == Terms(if s.w.rx.m.registry.network != 0 then s.w.rx.m.registry.network else e.draw.network,
                        u.rx.device, u.tx.device, e.nonce, e.draw.generation, 1,
                        x.public(e.draw.private.value).value)
    && KeyFor(x, e.draw.private.value, e.offer, e.nodePublic) == Some(e.key)
  }

  /** The store can take the credential: nothing of the node is pending, and the environment's conditions hold. */
  ghost predicate TakesNew(cfg: Config, s: State, x: Credential)
  {
    && SystemInv(cfg, s.m, s.d, s.h) && Joinable(cfg, s, x) && Allowed(cfg, s.m, s.d, s.h, OpPrepare(x))
    && (forall i: nat :: !PendingAt(s, x.node, i)) && FreeSlotsIn(s.m) != 0
  }

  ghost predicate CanJoin(u: Setup, x: Agreement, s: System, e: Exchange)
  {
    && u.rx.role.Receiver? && u.tx.role.Transmitter? && u.rx.c == u.tx.c
    && u.rx.device != 0 && u.tx.device != 0 && u.rx.device != u.tx.device
    && s.host == NEW_HOST && s.client == NEW_CLIENT
    && ExchangeFits(u, x, s, e) && KeysSeparate(s.marks + MarksOf(e)) && NewPair(s, e.offer)
    && TakesNew(u.rx, s.w.rx, CredentialOf(e.offer, e.key)) && TakesNew(u.tx, s.w.tx, CredentialOf(e.offer, e.key))
  }

  lemma FewerMarks(a: set<Mark>, b: set<Mark>)
    requires KeysSeparate(b) && a <= b
    ensures KeysSeparate(a)
  {
  }

  lemma Extend(u: Setup, x: Agreement, ss: seq<System>, moves: seq<Move>, a: Move, t: System)
    requires SystemRun(u, x, ss, moves) && Moves(u, x, ss[|moves|], a, t)
    ensures SystemRun(u, x, ss + [t], moves + [a])
  {
    hide Moves;
    var states, all := ss + [t], moves + [a];
    forall i | 0 <= i < |all| ensures Moves(u, x, states[i], all[i], states[i + 1]) {
      if i < |moves| {
        assert Moves(u, x, ss[i], moves[i], ss[i + 1]);
      }
    }
  }

  // ------------------------------------------------------------------ the node's polls

  /** A poll that hears nothing and only moves the client on. */
  lemma ClientStep(u: Setup, x: Agreement, s: System, now: u32, k: Client)
    requires Decide(x, u.tx.c, s.client, s.w.tx.m, u.tx.device, Good(Nothing), now) == Stay(k) && KeysSeparate(s.marks)
    ensures Moves(u, x, s, ClientPolls(Good(Nothing), now, false, [], []), s.(client := k))
  {
    hide Decide, KeysSeparate, Made;
    assert s.marks + {} == s.marks;
  }

  /** A checked channel, a transmission, and the node listens. */
  lemma Transmission(u: Setup, x: Agreement, ss: seq<System>, moves: seq<Move>, now: u32)
    returns (ts: seq<System>, all: seq<Move>)
    requires SystemRun(u, x, ss, moves) && KeysSeparate(ss[|moves|].marks)
    requires ss[|moves|].client.phase.Checking? && Elapsed(now, ss[|moves|].client.startedAt) < 120000
    ensures SystemRun(u, x, ts, all) && |all| == |moves| + 2 && ts[0] == ss[0] && moves <= all
    ensures
      var s := ss[|moves|];
      ts[|all|] == s.(client := s.client.(phase := s.client.afterSend, phaseAt := now))
  {
    hide Decide, Moves, KeysSeparate;
    var s := ss[|moves|];
    var a := ClientPolls(Good(Nothing), now, false, [], []);
    ChannelLaw(x, u.tx.c, s.client, s.w.tx.m, u.tx.device, Good(Nothing), now);
    var k := s.client.(phase := Sending, phaseAt := now);
    ClientStep(u, x, s, now, k);
    var t := s.(client := k);
    Extend(u, x, ss, moves, a, t);
    ts, all := ss + [t], moves + [a];
    SendingLaw(x, u.tx.c, k, s.w.tx.m, u.tx.device, Good(Nothing), now);
    var g := k.(phase := k.afterSend, phaseAt := now);
    ClientStep(u, x, t, now, g);
    Extend(u, x, ts, all, a, t.(client := g));
    ts, all := ts + [t.(client := g)], all + [a];
  }

  // ------------------------------------------------------------------ the stores

  lemma AlwaysAllowed(cfg: Config, s: State, op: Op)
    requires !op.OpPrepare? && !op.OpCommit?
    ensures Allowed(cfg, s.m, s.d, s.h, op)
  {
  }

  /** Preparing and activating the credential, with every write succeeding. */
  lemma Stores(cfg: Config, s: State, x: Credential, op: Op) returns (ss: seq<State>, es: seq<Event>, t: State)
    requires TakesNew(cfg, s, x)
    requires (op == OpAlongside(x.node, x.generation) && cfg.role.Receiver?) || op == OpActivate(x.node, x.generation)
    ensures Between(cfg, s, ss, es, t, x.node, x.generation) && InService(t.m, x)
    ensures SystemInv(cfg, t.m, t.d, t.h) && (op.OpAlongside? ==> forall i | 0 <= i < |es| :: !es[i].op.OpActivate?)
  {
    hide SystemInv, Allowed, Step, PlanOf, Joinable, Enrolled, InService, ApplyAll, TrackAll;
    var first := OpPrepare(x);
    StoreLimitRuns.Finishes(cfg, s, first);
    var u := StoreLimitRuns.After(cfg, s, first);
    var r := PlanOf(cfg, s.m, s.d, first).result;
    assert Faultless(cfg, s, first, u, r);
    FirstTry(cfg, s, x, u, r);
    PrepareOkEnrolls(cfg, s, x, u, r);
    AlwaysAllowed(cfg, u, op);
    StoreLimitRuns.Finishes(cfg, u, op);
    t := StoreLimitRuns.After(cfg, u, op);
    var result := PlanOf(cfg, u.m, u.d, op).result;
    assert Faultless(cfg, u, op, t, result);
    if op.OpAlongside? {
      AlongsideServes(cfg, u, x, t, result);
      AlongsideOk(cfg, u, x, t, result);
    } else {
      ActivateServes(cfg, u, x, t, result);
      ActivateOk(cfg, u, x, t, result);
    }
    ss, es := [s, u, t], [Finished(first), Finished(op)];
  }

  // ------------------------------------------------------------------ where the two sides stand

  ghost function RequestOf(u: Setup, e: Exchange): Frame
  {
    var f := BuildRequest(u.tx.device, e.nonce, e.nodePublic);
    if f.Some? then f.value else []
  }

  /** The node listens for an offer. */
  ghost function AskingClient(u: Setup, e: Exchange, wait: u32, at: u32): Client
  {
    NEW_CLIENT.(phase := Listening, afterSend := Listening, private := e.nodePrivate, public := e.nodePublic,
                nonce := e.nonce, waitMs := wait, phaseAt := at, outgoing := RequestOf(u, e))
  }

  /** The node waits for the completion of the exchange. */
  ghost function ConfirmingClient(u: Setup, e: Exchange, at: u32): Client
  {
    AskingClient(u, e, 200, at).(phase := AwaitingDone, afterSend := AwaitingDone, terms := e.offer, key := e.key,
                                 confirms := 1,
                                 outgoing := TaggedFrame(u.tx.c, Confirm, e.offer.network, u.tx.device, e.nonce, e.key))
  }

  /** The node is listed. */
  ghost function ListingHost(u: Setup, e: Exchange): Host
  {
    NEW_HOST.(phase := Open, openedAt := 0,
              candidates := [Candidate(u.tx.device, e.nonce, e.nodePublic, 0, 0, false, false)])
  }

  /** The operator accepted it. */
  ghost predicate OfferingHost(u: Setup, x: Agreement, e: Exchange, h: Host, pin: Pin)
  {
    && h.phase.Offered? && h.openedAt == 0 && h.offer == e.offer && h.key == e.key && h.last == NOT_COMPLETED
    && |h.candidates| == 1 && h.candidates[0].node == u.tx.device && h.candidates[0].nonce == e.nonce
    && h.candidates[0].public == e.nodePublic && !h.candidates[0].conflict && !h.candidates[0].joined
    && HostInv(h, x, u.rx.c, u.rx.device, pin)
  }

  /** The request is on the air and the node is listed. */
  lemma Requested(u: Setup, x: Agreement, s: System, e: Exchange) returns (ss: seq<System>, moves: seq<Move>)
    requires CanJoin(u, x, s, e)
    ensures SystemRun(u, x, ss, moves) && ss[0] == s
    ensures ss[|moves|] == s.(host := ListingHost(u, e), client := AskingClient(u, e, 0, 0))
  {
    hide Decide, KeysSeparate, TakesNew, NewPair, KeyFor, React, BuildRequest, ParseRequest, UntrustedType;
    FewerMarks(s.marks, s.marks + MarksOf(e));
    var h := Opened(s.host, 0);
    var t := s.(host := h);
    ss, moves := [s], [];
    Extend(u, x, ss, moves, HostWindow(true, 0), t);
    ss, moves := ss + [t], moves + [HostWindow(true, 0)];
    var b := Beginning(Some(e.nodePrivate), e.nonce);
    var m := t.w.tx.m;
    StartLaw(x, t.client, m, FreeSlotsIn(m), true, u.tx.device, b, Good(Nothing), 0);
    ReadyHere(u.tx, s.w.tx, CredentialOf(e.offer, e.key));
    var k := Starts(x, t.client, m, FreeSlotsIn(m), true, u.tx.device, b, Good(Nothing), 0);
    assert k == AskingClient(u, e, 0, 0).(phase := Checking);
    Extend(u, x, ss, moves, ClientStarts(b, Good(Nothing), 0), t.(client := k));
    ss, moves := ss + [t.(client := k)], moves + [ClientStarts(b, Good(Nothing), 0)];
    ss, moves := Transmission(u, x, ss, moves, 0);
    var v := ss[|moves|];
    RequestHeard(u, x, e, h);
    var a := HostHears(RequestOf(u, e), 0, 0, false, [], []);
    Extend(u, x, ss, moves, a, v.(host := ListingHost(u, e)));
    ss, moves := ss + [v.(host := ListingHost(u, e))], moves + [a];
  }

  lemma ReadyHere(cfg: Config, s: State, x: Credential)
    requires TakesNew(cfg, s, x)
    ensures s.m.health == Ready && FreeSlotsIn(s.m) != 0
  {
    hide SystemInv, Allowed;
  }

  /** The first request lists the node. */
  lemma RequestHeard(u: Setup, x: Agreement, e: Exchange, h: Host)
    requires u.tx.device != 0 && u.rx.device != u.tx.device && e.nonce != 0 && Nonzero(e.nodePublic)
    requires h == Opened(NEW_HOST, 0)
    ensures
      var r := React(u.rx.c, u.rx.device, h, RequestOf(u, e), 0, 0);
      r.Silent? && r.host == ListingHost(u, e)
  {
    var pin := Pin(ZERO32, ZERO32, true);
    var a := Asked(u.tx.device, e.nonce, e.nodePublic);
    RequestRoundTrip(a.node, a.nonce, a.public);
    RequestType(a.node, a.nonce, a.public);
    assert HostInv(h, x, u.rx.c, u.rx.device, pin);
    TrackLaw(h, a, 0, 0);
    RequestLaw(x, u.rx.c, u.rx.device, h, pin, RequestOf(u, e), 0, 0);
    NoLast(u.rx.c, u.rx.device, h, RequestOf(u, e), 0, 0);
    hide React, Tracked, BuildRequest, ParseRequest, UntrustedType;
  }

  /** Without a completed exchange there is nothing to forget. */
  lemma NoLast(c: Crypto, device: u64, h: Host, f: Frame, rssi: i16, now: u32)
    requires h.last == NOT_COMPLETED
    ensures React(c, device, h, f, rssi, now).host.last == NOT_COMPLETED
  {
    hide VerifyTagged, UntrustedType, ParseRequest, Listed;
  }

  /** The operator's click opens the offer. */
  lemma Clicked(u: Setup, x: Agreement, s: System, e: Exchange, ss: seq<System>, moves: seq<Move>)
    returns (ts: seq<System>, all: seq<Move>, h: Host)
    requires CanJoin(u, x, s, e) && SystemRun(u, x, ss, moves) && ss[0] == s
    requires ss[|moves|] == s.(host := ListingHost(u, e), client := AskingClient(u, e, 0, 0))
    ensures SystemRun(u, x, ts, all) && ts[0] == s
    ensures
      var pin := Pin(e.nodePublic, e.draw.private.value, false);
      && OfferingHost(u, x, e, h, pin)
      && ts[|all|] == ss[|moves|].(host := h, pin := pin,
                                   marks := s.marks + {Mark(e.key, Offer, e.offer, e.nodePublic)})
  {
    hide KeysSeparate, TakesNew, Moves, AfterAccept, KeyFor, BuildOffer;
    var v := ss[|moves|];
    ReadyHere(u.rx, s.w.rx, CredentialOf(e.offer, e.key));
    var m, node := v.w.rx.m, u.tx.device;
    var free := FreeSlotsIn(m);
    var result;
    h, result := Opens(u, x, s, e, free);
    var marks := s.marks + {Mark(e.key, Offer, e.offer, e.nodePublic)};
    FewerMarks(marks, s.marks + MarksOf(e));
    var t := v.(host := h, pin := Pin(e.nodePublic, e.draw.private.value, false), marks := marks);
    ClickMoves(u, x, v, e, h, t);
    Extend(u, x, ss, moves, HostClick(node, 0, e.draw), t);
    ts, all := ss + [t], moves + [HostClick(node, 0, e.draw)];
  }

  lemma Opens(u: Setup, x: Agreement, s: System, e: Exchange, free: nat) returns (h: Host, result: Result)
    requires CanJoin(u, x, s, e) && free == FreeSlotsIn(s.w.rx.m) != 0
    ensures (h, result)
      == AfterAccept(ListingHost(u, e), x, u.rx.c, s.w.rx.m, free, u.rx.device, u.tx.device, 0, e.draw)
    ensures result == Ok && OfferingHost(u, x, e, h, Pin(e.nodePublic, e.draw.private.value, false))
  {
    hide KeysSeparate, TakesNew, AfterAccept, BuildOffer, ParseOffer, VerifyOffer, Context;
    var l := ListingHost(u, e);
    var (g, r) := AfterAccept(l, x, u.rx.c, s.w.rx.m, free, u.rx.device, u.tx.device, 0, e.draw);
    h, result := g, r;
    assert ListedAt(l.candidates, u.tx.device, 0);
    AcceptLaw(l, x, u.rx.c, s.w.rx.m, free, u.rx.device, u.tx.device, 0, e.draw);
    var pin := Pin(ZERO32, ZERO32, true);
    assert HostInv(l, x, u.rx.c, u.rx.device, pin);
    AcceptPins(l, x, u.rx.c, s.w.rx.m, free, u.rx.device, u.tx.device, 0, e.draw, pin);
  }

  lemma ClickMoves(u: Setup, x: Agreement, v: System, e: Exchange, h: Host, t: System)
    requires v.host == ListingHost(u, e) && NewPair(v, e.offer) && KeysSeparate(t.marks) && e.draw.private.Some?
    requires OfferingHost(u, x, e, h, Pin(e.nodePublic, e.draw.private.value, false))
    requires AfterAccept(v.host, x, u.rx.c, v.w.rx.m, FreeSlotsIn(v.w.rx.m), u.rx.device, u.tx.device, 0, e.draw)
          == (h, Ok)
    requires t == v.(host := h, pin := Pin(e.nodePublic, e.draw.private.value, false),
                     marks := v.marks + {Mark(e.key, Offer, e.offer, e.nodePublic)})
    ensures Moves(u, x, v, HostClick(u.tx.device, 0, e.draw), t)
  {
    hide KeysSeparate, AfterAccept, HostInv, NewPair;
    ListedUnique(h.candidates, u.tx.device, 0, 1) by { assert Distinct(h.candidates); }
  }

  /** The node asks again and is answered with the offer. */
  lemma AskedAgain(u: Setup, x: Agreement, e: Exchange, ss: seq<System>, moves: seq<Move>, h: Host)
    returns (ts: seq<System>, all: seq<Move>, g: Host)
    requires SystemRun(u, x, ss, moves) && KeysSeparate(ss[|moves|].marks)
    requires ss[|moves|].client == AskingClient(u, e, 0, 0) && ss[|moves|].host == h
    requires OfferingHost(u, x, e, h, ss[|moves|].pin) && u.tx.device != 0 && u.rx.device != u.tx.device
    requires e.nonce != 0 && Nonzero(e.nodePublic) && e.offer.node == u.tx.device
    ensures SystemRun(u, x, ts, all) && ts[0] == ss[0] && OfferingHost(u, x, e, g, ss[|moves|].pin)
    ensures ts[|all|] == ss[|moves|].(client := AskingClient(u, e, 200, 1700), host := g)
    ensures
      var r := React(u.rx.c, u.rx.device, h, RequestOf(u, e), 0, 1700);
      r.Reply? && BuildOffer(u.rx.c, e.offer, e.key) == Some(r.frame)
  {
    hide Decide, KeysSeparate, Moves, React, HostInv, BuildRequest, BuildOffer, ParseOffer, VerifyOffer;
    var v := ss[|moves|];
    var k := AskingClient(u, e, 200, 1500).(phase := Waiting);
    QuietLaw(x, u.tx.c, v.client, v.w.tx.m, u.tx.device, Good(Nothing), 1500);
    ClientStep(u, x, v, 1500, k);
    Extend(u, x, ss, moves, ClientPolls(Good(Nothing), 1500, false, [], []), v.(client := k));
    ts, all := ss + [v.(client := k)], moves + [ClientPolls(Good(Nothing), 1500, false, [], [])];
    var y := v.(client := k);
    WaitingLaw(x, u.tx.c, k, v.w.tx.m, u.tx.device, Good(Nothing), 1700);
    var again := k.(phase := Checking, phaseAt := 1700);
    ClientStep(u, x, y, 1700, again);
    Extend(u, x, ts, all, ClientPolls(Good(Nothing), 1700, false, [], []), y.(client := again));
    ts, all := ts + [y.(client := again)], all + [ClientPolls(Good(Nothing), 1700, false, [], [])];
    ts, all := Transmission(u, x, ts, all, 1700);
    g := AnsweredWithOffer(u, x, e, h, v.pin);
    var z := ts[|all|];
    var a := HostHears(RequestOf(u, e), 0, 1700, false, [], []);
    HostStep(u, x, z, a, g);
    Extend(u, x, ts, all, a, z.(host := g));
    ts, all := ts + [z.(host := g)], all + [a];
  }

  lemma HostStep(u: Setup, x: Agreement, s: System, a: Move, g: Host)
    requires a.HostHears? && KeysSeparate(s.marks)
    requires
      var r := React(u.rx.c, u.rx.device, s.host, a.f, a.rssi, a.now);
      !r.Confirmed? && r.host == g
    ensures Moves(u, x, s, a, s.(host := g))
  {
    hide React, KeysSeparate;
  }

  lemma AnsweredWithOffer(u: Setup, x: Agreement, e: Exchange, h: Host, pin: Pin) returns (g: Host)
    requires OfferingHost(u, x, e, h, pin) && u.tx.device != 0 && u.rx.device != u.tx.device
    requires e.nonce != 0 && Nonzero(e.nodePublic) && e.offer.node == u.tx.device
    ensures
      var r := React(u.rx.c, u.rx.device, h, RequestOf(u, e), 0, 1700);
      r.Reply? && r.host == g && BuildOffer(u.rx.c, e.offer, e.key) == Some(r.frame)
    ensures OfferingHost(u, x, e, g, pin)
  {
    hide HostInv, React, ParseOffer, VerifyOffer, BuildOffer;
    assert ListedAt(h.candidates, h.offer.node, 0);
    OfferAnswered(x, u.rx.c, u.rx.device, h, pin, RequestOf(u, e), 0, 1700, 0);
    ReactKeeps(h, x, u.rx.c, u.rx.device, pin, RequestOf(u, e), 0, 1700);
    NoLast(u.rx.c, u.rx.device, h, RequestOf(u, e), 0, 1700);
    g := React(u.rx.c, u.rx.device, h, RequestOf(u, e), 0, 1700).host;
  }

  /** The node hears the offer, and its confirmation goes out. */
  lemma Confirms(u: Setup, x: Agreement, e: Exchange, ss: seq<System>, moves: seq<Move>, f: Frame)
    returns (ts: seq<System>, all: seq<Move>)
    requires SystemRun(u, x, ss, moves) && u.rx.c == u.tx.c
    requires
      var s := ss[|moves|];
      && s.client == AskingClient(u, e, 200, 1700)
      && Mark(e.key, Offer, e.offer, e.nodePublic) in s.marks
      && KeysSeparate(s.marks + {Mark(e.key, Confirm, e.offer, e.nodePublic)})
      && (s.w.tx.m.registry.network == 0
          || (s.w.tx.m.registry.network == e.offer.network && s.w.tx.m.registry.receiver == e.offer.receiver))
    requires x.public(e.nodePrivate) == Some(e.nodePublic) && e.nonce != 0 && Nonzero(e.nodePublic)
    requires OfferTo(x, u.tx.c, AskingClient(u, e, 200, 1700), u.tx.device, f, e.offer, e.key) && u.tx.device != 0
    ensures SystemRun(u, x, ts, all) && ts[0] == ss[0]
    ensures ts[|all|] == ss[|moves|].(client := ConfirmingClient(u, e, 1700),
                                      marks := ss[|moves|].marks + {Mark(e.key, Confirm, e.offer, e.nodePublic)})
  {
    hide Decide, KeysSeparate, Moves, BuildOffer, DeriveBindingKey, TaggedFrame, OfferTo;
    var s := ss[|moves|];
    var r, k := Good(Heard.Frame(f)), s.client;
    OfferLaw(x, u.tx.c, k, s.w.tx.m, u.tx.device, r, 1700, e.offer, e.key);
    var d := ConfirmingClient(u, e, 1700).(phase := Checking);
    var marks := s.marks + {Mark(e.key, Confirm, e.offer, e.nodePublic)};
    HearsOffer(u, x, e, s, f, d, marks);
    var t := s.(client := d, marks := marks);
    Extend(u, x, ss, moves, ClientPolls(r, 1700, false, [], []), t);
    ts, all := ss + [t], moves + [ClientPolls(r, 1700, false, [], [])];
    ts, all := Transmission(u, x, ts, all, 1700);
  }

  lemma HearsOffer(u: Setup, x: Agreement, e: Exchange, s: System, f: Frame, d: Client, marks: set<Mark>)
    requires u.rx.c == u.tx.c && s.client == AskingClient(u, e, 200, 1700) && KeysSeparate(marks)
    requires Mark(e.key, Offer, e.offer, e.nodePublic) in s.marks
    requires marks == s.marks + {Mark(e.key, Confirm, e.offer, e.nodePublic)}
    requires s.w.tx.m.registry.network == 0
      || (s.w.tx.m.registry.network == e.offer.network && s.w.tx.m.registry.receiver == e.offer.receiver)
    requires OfferTo(x, u.tx.c, s.client, u.tx.device, f, e.offer, e.key)
    requires Decide(x, u.tx.c, s.client, s.w.tx.m, u.tx.device, Good(Heard.Frame(f)), 1700) == Stay(d)
    ensures Moves(u, x, s, ClientPolls(Good(Heard.Frame(f)), 1700, false, [], []), s.(client := d, marks := marks))
  {
    hide Decide, KeysSeparate, OfferTo, ForUs, ParseOffer, BuildOffer, MarkFrame, UntrustedType, ClientKey;
    OfferIsTheMark(u, x, e, s.client, f);
  }

  lemma OfferIsTheMark(u: Setup, x: Agreement, e: Exchange, k: Client, f: Frame)
    requires u.rx.c == u.tx.c && OfferTo(x, u.tx.c, k, u.tx.device, f, e.offer, e.key)
    ensures ForUs(x, u.tx.c, k, u.tx.device, f) && ParseOffer(f) == Some(e.offer) && UntrustedType(f) == 4
    ensures ClientKey(x, k, u.tx.device, e.offer) == Some(e.key)
    ensures MarkFrame(u.rx.c, Mark(e.key, Offer, e.offer, e.nodePublic)) == f
  {
    OfferToIff(x, u.tx.c, k, u.tx.device, f);
    OfferFits(u.tx.c, e.offer, e.key, f);
    FrameKind(u.rx.c, Mark(e.key, Offer, e.offer, e.nodePublic));
    assert OfferTo(x, u.tx.c, k, u.tx.device, f, e.offer, e.key);
    hide ForUs, ParseOffer, MarkFrame, UntrustedType, DeriveBindingKey, OfferBody;
  }

  // ------------------------------------------------------------------ the exchange is completed

  /** The confirmation reaches the host, which stores the binding and answers. */
  lemma HostConfirms(u: Setup, x: Agreement, e: Exchange, s: System, ss: seq<State>, es: seq<Event>, rx: State)
    returns (t: System)
    requires OfferingHost(u, x, e, s.host, s.pin) && s.pin.public == e.nodePublic && u.rx.c == u.tx.c
    requires e.offer.node == u.tx.device && e.offer.nonce == e.nonce
    requires Mark(e.key, Confirm, e.offer, e.nodePublic) in s.marks
    requires KeysSeparate(s.marks + {Mark(e.key, PairingType.Done, e.offer, e.nodePublic)})
    requires Between(u.rx, s.w.rx, ss, es, rx, e.offer.node, e.offer.generation)
    requires (forall i | 0 <= i < |es| :: !es[i].op.OpActivate?) && InService(rx.m, CredentialOf(e.offer, e.key))
    ensures
      var f := TaggedFrame(u.tx.c, Confirm, e.offer.network, u.tx.device, e.nonce, e.key);
      Moves(u, x, s, HostHears(f, 0, 1700, true, ss, es), t)
    ensures
      var done := Mark(e.key, PairingType.Done, e.offer, e.nodePublic);
      && t == s.(host := t.host, w := s.w.(rx := rx), marks := s.marks + {done}, stored := s.stored + {done})
      && t.host.phase.Paired? && t.host.paired == u.tx.device
  {
    hide KeysSeparate, HostInv, React, TaggedFrame, InService, Between, Completes, MarkFrame;
    var f := TaggedFrame(u.tx.c, Confirm, e.offer.network, u.tx.device, e.nonce, e.key);
    TaggedType(u.rx.c, Confirm, e.offer.network, u.tx.device, e.nonce, e.key);
    ConfirmLaw(u.rx.c, u.rx.device, s.host, f, 0, 1700);
    NoLast(u.rx.c, u.rx.device, s.host, f, 0, 1700);
    var r := React(u.rx.c, u.rx.device, s.host, f, 0, 1700);
    CompletesLaw(u.rx.c, r.host, 1700);
    FrameKind(u.rx.c, Mark(e.key, Confirm, e.offer, e.nodePublic));
    assert MarkFrame(u.rx.c, Mark(e.key, Confirm, e.offer, e.nodePublic)) == f;
    var done := Mark(e.key, PairingType.Done, e.offer, e.nodePublic);
    t := s.(host := Completes(u.rx.c, r.host, 1700), w := s.w.(rx := rx), marks := s.marks + {done},
            stored := s.stored + {done});
  }

  /** The completion reaches the node, which stores the binding. */
  lemma ClientCompletes(u: Setup, x: Agreement, e: Exchange, s: System, ss: seq<State>, es: seq<Event>, tx: State)
    returns (t: System)
    requires s.client == ConfirmingClient(u, e, 1700) && u.rx.c == u.tx.c && e.offer.node == u.tx.device
    requires e.offer.nonce == e.nonce && Mark(e.key, PairingType.Done, e.offer, e.nodePublic) in s.marks
    requires KeysSeparate(s.marks) && Between(u.tx, s.w.tx, ss, es, tx, e.offer.node, e.offer.generation)
    requires InService(tx.m, CredentialOf(e.offer, e.key))
    ensures
      var f := TaggedFrame(u.tx.c, PairingType.Done, e.offer.network, u.tx.device, e.nonce, e.key);
      Moves(u, x, s, ClientPolls(Good(Heard.Frame(f)), 1700, true, ss, es), t)
    ensures t == s.(client := t.client, w := s.w.(tx := tx)) && t.client.phase.InNetwork?
  {
    hide KeysSeparate, TaggedFrame, InService, Between, Decide, MarkFrame;
    var f := TaggedFrame(u.tx.c, PairingType.Done, e.offer.network, u.tx.device, e.nonce, e.key);
    DoneLaw(x, u.tx.c, s.client, s.w.tx.m, u.tx.device, Good(Heard.Frame(f)), 1700);
    FrameKind(u.rx.c, Mark(e.key, PairingType.Done, e.offer, e.nodePublic));
    assert MarkFrame(u.rx.c, Mark(e.key, PairingType.Done, e.offer, e.nodePublic)) == f;
    t := s.(client := Ended(s.client, true), w := s.w.(tx := tx));
  }

  /** The first half: the offer is open, and the node's confirmation is on the air. */
  lemma UpToConfirmation(u: Setup, x: Agreement, s: System, e: Exchange)
    returns (ss: seq<System>, moves: seq<Move>, h: Host)
    requires CanJoin(u, x, s, e)
    ensures SystemRun(u, x, ss, moves) && ss[0] == s
    ensures
      var pin := Pin(e.nodePublic, e.draw.private.value, false);
      && OfferingHost(u, x, e, h, pin)
      && ss[|moves|] == System(s.w, h, pin, ConfirmingClient(u, e, 1700),
                               s.marks + {Mark(e.key, Offer, e.offer, e.nodePublic)}
                               + {Mark(e.key, Confirm, e.offer, e.nodePublic)}, s.stored)
  {
    hide KeysSeparate, TakesNew, NewPair, OfferingHost, React, BuildOffer, KeyFor, DeriveBindingKey;
    ss, moves := Requested(u, x, s, e);
    ss, moves, h := Clicked(u, x, s, e, ss, moves);
    var marks := s.marks + {Mark(e.key, Offer, e.offer, e.nodePublic)};
    FewerMarks(marks, s.marks + MarksOf(e));
    var r := React(u.rx.c, u.rx.device, h, RequestOf(u, e), 0, 1700);
    ss, moves, h := AskedAgain(u, x, e, ss, moves, h);
    FewerMarks(marks + {Mark(e.key, Confirm, e.offer, e.nodePublic)}, s.marks + MarksOf(e));
    NodeCompatible(u.tx, s.w.tx, e.offer, e.key);
    SameForBoth(u, x, s, e);
    ss, moves := Confirms(u, x, e, ss, moves, r.frame);
  }

  lemma NodeCompatible(cfg: Config, s: State, o: Terms, key: Key)
    requires TakesNew(cfg, s, CredentialOf(o, key))
    ensures s.m.registry.network == 0 || (s.m.registry.network == o.network && s.m.registry.receiver == o.receiver)
  {
    hide SystemInv, Allowed, Unfit, Names;
  }

  /** The node derives the host's key, so the offer is one to its attempt. */
  lemma SameForBoth(u: Setup, x: Agreement, s: System, e: Exchange)
    requires ExchangeFits(u, x, s, e) && u.rx.c == u.tx.c && u.rx.device != u.tx.device
    ensures forall f :: BuildOffer(u.rx.c, e.offer, e.key) == Some(f) ==>
      OfferTo(x, u.tx.c, AskingClient(u, e, 200, 1700), u.tx.device, f, e.offer, e.key)
  {
    hide BuildOffer, DeriveBindingKey;
    SameKey(x, e.nodePrivate, e.nodePublic, e.draw.private.value, e.offer.receiverPublic, e.offer.network,
            e.offer.receiver, e.offer.node, e.offer.generation);
  }

  /**
   * Over an honest channel, with a radio that works, an operator that accepts and stores that have room, the
   * exchange ends with both devices paired and the same credential in service on both.
   */
  lemma Joins(u: Setup, x: Agreement, s: System, e: Exchange) returns (ss: seq<System>, moves: seq<Move>)
    requires CanJoin(u, x, s, e)
    ensures SystemRun(u, x, ss, moves) && ss[0] == s
    ensures
      var t := ss[|moves|];
      && t.client.phase.InNetwork? && t.host.phase.Paired? && t.host.paired == u.tx.device
      && InService(t.w.rx.m, CredentialOf(e.offer, e.key)) && InService(t.w.tx.m, CredentialOf(e.offer, e.key))
      && t.stored == s.stored + {Mark(e.key, PairingType.Done, e.offer, e.nodePublic)}
  {
    hide KeysSeparate, TakesNew, NewPair, OfferingHost, Moves, InService, Between, TaggedFrame;
    var h;
    ss, moves, h := UpToConfirmation(u, x, s, e);
    var v, c := ss[|moves|], CredentialOf(e.offer, e.key);
    var rs, re, rx := Stores(u.rx, s.w.rx, c, OpAlongside(c.node, c.generation));
    var done := Mark(e.key, PairingType.Done, e.offer, e.nodePublic);
    assert v.marks + {done} == s.marks + MarksOf(e);
    var w := HostConfirms(u, x, e, v, rs, re, rx);
    var confirm := TaggedFrame(u.tx.c, Confirm, e.offer.network, u.tx.device, e.nonce, e.key);
    Extend(u, x, ss, moves, HostHears(confirm, 0, 1700, true, rs, re), w);
    ss, moves := ss + [w], moves + [HostHears(confirm, 0, 1700, true, rs, re)];
    var ts, te, tx := Stores(u.tx, s.w.tx, c, OpActivate(c.node, c.generation));
    var y := ClientCompletes(u, x, e, w, ts, te, tx);
    var f := TaggedFrame(u.tx.c, PairingType.Done, e.offer.network, u.tx.device, e.nonce, e.key);
    Extend(u, x, ss, moves, ClientPolls(Good(Heard.Frame(f)), 1700, true, ts, te), y);
    ss, moves := ss + [y], moves + [ClientPolls(Good(Heard.Frame(f)), 1700, true, ts, te)];
  }

  // ------------------------------------------------------------------ two new devices

  const EXAMPLE_KEY: Key := ZERO16[15 := 7]
  const EXAMPLE_AGREEMENT: Agreements := Agreements(a => Some(a), (a, b) => Some(ZERO32), (s, i) => EXAMPLE_KEY)
  const NODE_KEY: XKey := ZERO32[0 := 1]
  const HOST_KEY: XKey := ZERO32[0 := 2]
  const EXAMPLE_EXCHANGE :=
    Exchange(NODE_KEY, NODE_KEY, 5, Draw(Some(HOST_KEY), 9, 11), Terms(9, 1, 2, 5, 11, 1, HOST_KEY), EXAMPLE_KEY)

  /** A device that never stored anything takes a first credential. */
  lemma NewTakes(cfg: Config, x: Credential)
    requires cfg.device != 0 && !Unfit(cfg, x)
    ensures TakesNew(cfg, StoreLimitRuns.NewState(cfg), x)
  {
    var s := StoreLimitRuns.NewState(cfg);
    NewIsEmpty(cfg);
    assert EmptyAt(s, 0);
    assert FirstEmpty(s.m.registry.entries, 1) == Some(0);
    StoreLimitRuns.ZeroIsEmpty(s.m.registry.entries, BINDING_CAPACITY);
    NoneUsable(s.m, BINDING_CAPACITY);
    hide SystemInv, Unfit, LoadDisk, UsableSlots;
  }

  lemma NewIsEmpty(cfg: Config)
    requires cfg.device != 0
    ensures
      var s := StoreLimitRuns.NewState(cfg);
      && SystemInv(cfg, s.m, s.d, s.h) && s.m.health == Ready && s.m.registry == NO_REGISTRY && s.m.retired == []
  {
    BlankIsSafe(cfg);
    Mounts(cfg, StoreLimitRuns.BLANK, NO_HISTORY);
    Recovers(cfg, StoreLimitRuns.BLANK, NO_HISTORY);
    hide LoadDisk, Inv;
  }

  /** A new node and a new receiver. */
  ghost function NewPairOf(c: Crypto): (Setup, System)
  {
    var rx, tx := Config(c, Receiver, 1), Config(c, Transmitter, 2);
    var w := World(StoreLimitRuns.NewState(rx), StoreLimitRuns.NewState(tx), IDLE_SENDER, {});
    (Setup(rx, tx, {}), System(w, NEW_HOST, Pin(ZERO32, ZERO32, true), NEW_CLIENT, {}, {}))
  }

  lemma NewPairCanJoin(c: Crypto, x: Agreement)
    requires x == EXAMPLE_AGREEMENT
    ensures
      var (u, s) := NewPairOf(c);
      CanJoin(u, x, s, EXAMPLE_EXCHANGE)
  {
    var (u, s) := NewPairOf(c);
    var credential := CredentialOf(EXAMPLE_EXCHANGE.offer, EXAMPLE_KEY);
    assert credential.key[15] == 7;
    NewTakes(u.rx, credential);
    NewTakes(u.tx, credential);
    NewIsEmpty(u.rx);
    hide TakesNew, StoreLimitRuns.NewState, ExchangeFits, KeysSeparate, NewPair, MarksOf, SystemInv;
    ExampleFits(u, x, s);
  }

  /** A new node joins a new receiver, whatever the cipher. */
  lemma NewNodeJoins(c: Crypto) returns (x: Agreement, ss: seq<System>, moves: seq<Move>)
    ensures
      var (u, s) := NewPairOf(c);
      && SystemRun(u, x, ss, moves) && ss[0] == s
      && ss[|moves|].client.phase.InNetwork? && ss[|moves|].host.paired == u.tx.device
      && InService(ss[|moves|].w.rx.m, CredentialOf(EXAMPLE_EXCHANGE.offer, EXAMPLE_KEY))
      && InService(ss[|moves|].w.tx.m, CredentialOf(EXAMPLE_EXCHANGE.offer, EXAMPLE_KEY))
  {
    hide CanJoin, SystemRun, InService, NewPairOf;
    assert Commutes(EXAMPLE_AGREEMENT);
    x := EXAMPLE_AGREEMENT;
    var (u, s) := NewPairOf(c);
    NewPairCanJoin(c, x);
    ss, moves := Joins(u, x, s, EXAMPLE_EXCHANGE);
    RunShape(u, x, ss, moves);
  }

  lemma RunShape(u: Setup, x: Agreement, ss: seq<System>, moves: seq<Move>)
    requires SystemRun(u, x, ss, moves)
    ensures |ss| == |moves| + 1
  {
    hide Moves;
  }

  lemma ExampleFits(u: Setup, x: Agreement, s: System)
    requires u.rx.device == 1 && u.tx.device == 2 && s.w.rx.m.registry.network == 0 && s.marks == {}
    requires x == EXAMPLE_AGREEMENT
    ensures ExchangeFits(u, x, s, EXAMPLE_EXCHANGE)
    ensures KeysSeparate(s.marks + MarksOf(EXAMPLE_EXCHANGE)) && NewPair(s, EXAMPLE_EXCHANGE.offer)
  {
    assert NODE_KEY[0] == 1 && HOST_KEY[0] == 2 && ZERO32[0] == 0;
    hide Context;
  }
}
