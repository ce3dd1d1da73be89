// The whole system: both devices deliver, pair again, are administered and lose power, over a
// hostile channel. Pairing ends in two stores that agree, and no key ever meets a nonce twice.
module PairingRuns {
  import opened Wire
  import opened Protocol
  import opened Codec
  import opened Records
  import opened Store
  import opened StoreInvariant
  import opened StoreOps
  import opened StoreRuns
  import opened StoreObject
  import opened Delivery
  import opened NodeCounters
  import opened DeliveryRuns
  import opened Pairing
  import opened PairingStore
  import opened HostPairing
  import opened ClientPairing

  /** One pairing encryption: a tag under a key derived from the terms and the node's public key. */
  datatype Mark = Mark(key: Key, kind: PairingType, terms: Terms, nodePublic: XKey)

  /** The bytes a pairing tag authenticates; its plaintext is empty. */
  function Authenticated(m: Mark): seq<byte>
  {
    if m.kind.Offer? then OfferBody(m.terms)
    else PairingHeader(m.kind, m.terms.network, m.terms.node, m.terms.nonce, 0)
  }

  function MarkFrame(c: Crypto, m: Mark): Frame
  {
    Authenticated(m) + TagFor(c, m.key, m.kind, m.terms.nonce, Authenticated(m))
  }

  function ContextOf(m: Mark): seq<byte>
  {
    Context(m.terms.network, m.terms.receiver, m.terms.node, m.terms.generation, m.nodePublic, m.terms.receiverPublic)
  }

  /** Distinct contexts gave distinct keys, among the keys in use. */
  ghost predicate KeysSeparate(marks: set<Mark>)
  {
    forall a, b | a in marks && b in marks && a.key == b.key :: ContextOf(a) == ContextOf(b)
  }

  /** Both devices, every pairing encryption, and the bindings the host reported stored. */
  datatype System = System(w: World, host: Host, pin: Pin, client: Client, marks: set<Mark>, stored: set<Mark>)

  datatype Move =
    | Deliver(a: Action)
    | HostWindow(open: bool, now: u32)
    | HostClick(node: u64, now: u32, draw: Draw)
    | HostHears(f: Frame, rssi: i16, now: u32, ok: bool, ss: seq<State>, es: seq<Event>)
    | HostRestart
    | ClientStarts(b: Beginning, r: Radio, now: u32)
    | ClientPolls(r: Radio, now: u32, ok: bool, ss: seq<State>, es: seq<Event>)
    | ClientRestart

  /** A frame that verifies under a trusted key was made by one of the two devices. */
  ghost predicate Made(u: Setup, s: System, key: Key, f: Frame)
  {
    key in u.trusted ==> exists m :: m in s.marks && m.key == key && MarkFrame(u.rx.c, m) == f
  }

  /** A stretch of store operations, from one durable state to another. */
  ghost predicate Between(cfg: Config, s: State, ss: seq<State>, es: seq<Event>, t: State, node: u64, generation: u64)
  {
    Stretch(cfg, ss, es, node, generation) && |ss| == |es| + 1 && ss[0] == s && ss[|es|] == t
  }

  ghost predicate HostMoves(u: Setup, x: Agreement, s: System, f: Frame, rssi: i16, now: u32, ok: bool,
                            ss: seq<State>, es: seq<Event>, t: System)
  {
    var c := u.rx.c;
    var r := React(c, u.rx.device, s.host, f, rssi, now);
    && t.client == s.client && t.pin == s.pin
    && (if !r.Confirmed? then t == s.(host := r.host)
        else
          && Made(u, s, r.host.key, f)
          && Between(u.rx, s.w.rx, ss, es, t.w.rx, r.host.offer.node, r.host.offer.generation)
          && (forall i | 0 <= i < |es| :: !es[i].op.OpActivate?)
          && t.w == s.w.(rx := t.w.rx)
          && (if ok then
                var done := Mark(r.host.key, PairingType.Done, r.host.offer, s.pin.public);
                && InService(t.w.rx.m, CredentialOf(r.host.offer, r.host.key))
                && t.host == Completes(c, r.host, now)
                && t.marks == s.marks + {done} && t.stored == s.stored + {done}
              else t.host == r.host && t.marks == s.marks && t.stored == s.stored))
  }

  /** The receiver's ephemeral key pair is new at every click. */
  ghost predicate NewPair(s: System, o: Terms)
  {
    forall m | m in s.marks :: m.terms.receiverPublic != o.receiverPublic
  }

  ghost predicate HostClicks(u: Setup, x: Agreement, s: System, node: u64, now: u32, draw: Draw, t: System)
  {
    var m := s.w.rx.m;
    var free := FreeSlotsIn(m);
    var (h, result) := AfterAccept(s.host, x, u.rx.c, m, free, u.rx.device, node, now, draw);
    && t.host == h && t.w == s.w && t.client == s.client && t.stored == s.stored
    && (if result == Ok then
          var i := Listed(h.candidates, node, |h.candidates|);
          && i.Some? && draw.private.Some?
          && t.pin == Pin(h.candidates[i.value].public, draw.private.value, h.candidates[i.value].joined)
          && NewPair(s, h.offer)
          && t.marks == s.marks + {Mark(h.key, Offer, h.offer, t.pin.public)}
        else t.pin == s.pin && t.marks == s.marks)
  }

  /** Everything a radio call of the client can have sealed: the confirmation, even if the radio then failed. */
  ghost function Sealed(x: Agreement, c: Crypto, k: Client, m: Mem, device: u64, r: Radio): set<Mark>
  {
    if r.heard.Frame? && k.phase.Listening? && UntrustedType(r.heard.f) == 4 && ForUs(x, c, k, device, r.heard.f)
       && Compatible(m, ParseOffer(r.heard.f).value)
    then
      var o := ParseOffer(r.heard.f).value;
      {Mark(ClientKey(x, k, device, o).value, Confirm, o, k.public)}
    else {}
  }

  ghost predicate ClientMoves(u: Setup, x: Agreement, s: System, r: Radio, now: u32, ok: bool,
                              ss: seq<State>, es: seq<Event>, t: System)
  {
    var c, device, k := u.tx.c, u.tx.device, s.client;
    var d := Decide(x, c, k, s.w.tx.m, device, r, now);
    && t.host == s.host && t.pin == s.pin && t.stored == s.stored
    && (r.heard.Frame? && k.phase.Listening? && ForUs(x, c, k, device, r.heard.f) ==>
          Made(u, s, ClientKey(x, k, device, ParseOffer(r.heard.f).value).value, r.heard.f))
    && (if d.Stay? then
          t.client == d.client && t.w == s.w && t.marks == s.marks + Sealed(x, c, k, s.w.tx.m, device, r)
        else
          && Made(u, s, k.key, r.heard.f) && t.marks == s.marks
          && Between(u.tx, s.w.tx, ss, es, t.w.tx, k.terms.node, k.terms.generation)
          && t.w == s.w.(tx := t.w.tx)
          && t.client == Ended(k, ok)
          && (ok ==> InService(t.w.tx.m, CredentialOf(k.terms, k.key))))
  }

  ghost predicate Moves(u: Setup, x: Agreement, s: System, a: Move, t: System)
  {
    && KeysSeparate(t.marks)
    && match a
       case Deliver(action) => Next(u, s.w, action, t.w) && t == s.(w := t.w)
       case HostWindow(open, now) =>
         t == s.(host := if open then Opened(s.host, now) else Shut(s.host)) || t == s.(host := Polled(s.host, now))
       case HostClick(node, now, draw) => HostClicks(u, x, s, node, now, draw, t)
       case HostHears(f, rssi, now, ok, ss, es) => HostMoves(u, x, s, f, rssi, now, ok, ss, es, t)
       case HostRestart => t == s.(host := NEW_HOST)
       case ClientStarts(b, r, now) =>
         var m := s.w.tx.m;
         t == s.(client := Starts(x, s.client, m, FreeSlotsIn(m),
                                  true, u.tx.device, b, r, now))
       case ClientPolls(r, now, ok, ss, es) => ClientMoves(u, x, s, r, now, ok, ss, es, t)
       case ClientRestart => t == s.(client := NEW_CLIENT)
  }

  ghost predicate SystemRun(u: Setup, x: Agreement, ss: seq<System>, moves: seq<Move>)
  {
    |ss| == |moves| + 1 && forall i | 0 <= i < |moves| :: Moves(u, x, ss[i], moves[i], ss[i + 1])
  }

  // ------------------------------------------------------------------ the invariant

  ghost predicate OfferMade(marks: set<Mark>, key: Key, o: Terms)
  {
    exists m :: m in marks && m.kind.Offer? && m.key == key && m.terms == o
  }

  ghost predicate MarksInv(u: Setup, marks: set<Mark>, stored: set<Mark>)
  {
    && (forall m | m in marks :: !m.kind.Request? && m.terms.profile == PAIRING_PROFILE)
    && (forall a, b | a in marks && b in marks && a.kind.Offer? && b.kind.Offer? && a.key == b.key ::
        a.terms == b.terms)
    && (forall m | m in marks && m.kind.Done? :: m in stored)
    && (forall m | m in stored :: m.kind.Done? && OfferMade(marks, m.key, m.terms))
  }

  ghost predicate SideInv(u: Setup, x: Agreement, s: System)
  {
    && HostInv(s.host, x, u.rx.c, u.rx.device, s.pin)
    && (s.host.phase.Offered? ==> OfferMade(s.marks, s.host.key, s.host.offer))
    && ClientInv(s.client, x, u.tx.c, u.tx.device)
    && (Running(s.client) && s.client.afterSend.AwaitingDone? && s.client.key in u.trusted ==>
          OfferMade(s.marks, s.client.key, s.client.terms))
  }

  ghost predicate SystemOk(u: Setup, x: Agreement, s: System)
  {
    && WorldInv(u, s.w) && u.rx.device != 0
    && MarksInv(u, s.marks, s.stored) && SideInv(u, x, s)
  }

  // ------------------------------------------------------------------ frames tell the kind

  lemma FrameKind(c: Crypto, m: Mark)
    ensures |MarkFrame(c, m)| >= HEADER_SIZE && MarkFrame(c, m)[5] == TypeByte(m.kind)
    ensures m.kind.Offer? && TermsFit(m.terms) ==> BuildOffer(c, m.terms, m.key) == Some(MarkFrame(c, m))
    ensures !m.kind.Offer? ==>
      MarkFrame(c, m) == TaggedFrame(c, m.kind, m.terms.network, m.terms.node, m.terms.nonce, m.key)
  {
    var tag := TagFor(c, m.key, m.kind, m.terms.nonce, Authenticated(m));
    if m.kind.Offer? {
      var payload :=
        m.terms.receiverPublic + Be(m.terms.receiver, 8) + Be(m.terms.generation, 8) + Be(m.terms.profile, 2);
      Assoc(PairingHeader(Offer, m.terms.network, m.terms.node, m.terms.nonce, 50), payload, tag);
      HeaderReadsBack(Offer, m.terms.network, m.terms.node, m.terms.nonce, 50, payload + tag);
    } else {
      HeaderReadsBack(m.kind, m.terms.network, m.terms.node, m.terms.nonce, 0, tag);
    }
  }

  lemma TaggedKind(c: Crypto, t: PairingType, network: u64, node: u64, nonce: u64, key: Key)
    ensures |TaggedFrame(c, t, network, node, nonce, key)| == 48
      && TaggedFrame(c, t, network, node, nonce, key)[5] == TypeByte(t)
  {
    HeaderReadsBack(t, network, node, nonce, 0, TagFor(c, key, t, nonce, PairingHeader(t, network, node, nonce, 0)));
  }

  // ------------------------------------------------------------------ stores

  /** A stretch of the host's operations is a stretch of the delivery world's. */
  lemma {:induction false} HostStretchKeeps(u: Setup, w: World, ss: seq<State>, es: seq<Event>, node: u64,
                                            generation: u64, n: nat)
    requires Stretch(u.rx, ss, es, node, generation) && n < |ss| && ss[0] == w.rx && WorldInv(u, w)
    ensures WorldInv(u, w.(rx := ss[n]))
  {
    hide WorldInv, Step, Gentle;
    if n == 0 {
      assert w.(rx := ss[0]) == w;
    } else {
      HostStretchKeeps(u, w, ss, es, node, generation, n - 1);
      assert Step(u.rx, ss[n - 1], es[n - 1], ss[n]) && Gentle(ss[n - 1], es[n - 1].op, node, generation);
      GentleIsNoCommit(ss[n - 1], es[n - 1].op, node, generation);
      HostStoreKeeps(u, w.(rx := ss[n - 1]), es[n - 1], w.(rx := ss[n]));
    }
  }

  lemma GentleIsNoCommit(s: State, op: Op, node: u64, generation: u64)
    requires Gentle(s, op, node, generation)
    ensures !op.OpCommit?
  {
  }

  lemma {:induction false} NodeStretchKeeps(u: Setup, w: World, ss: seq<State>, es: seq<Event>, node: u64,
                                            generation: u64, n: nat)
    requires Stretch(u.tx, ss, es, node, generation) && n < |ss| && ss[0] == w.tx && WorldInv(u, w)
    ensures WorldInv(u, w.(tx := ss[n]))
  {
    hide WorldInv, Step, Gentle;
    if n == 0 {
      assert w.(tx := ss[0]) == w;
    } else {
      NodeStretchKeeps(u, w, ss, es, node, generation, n - 1);
      assert Step(u.tx, ss[n - 1], es[n - 1], ss[n]);
      NodeStoreKeeps(u, w.(tx := ss[n - 1]), es[n - 1], w.(tx := ss[n]));
    }
  }

  // ------------------------------------------------------------------ each move keeps it

  lemma MoreMarks(u: Setup, x: Agreement, s: System, marks: set<Mark>, stored: set<Mark>)
    requires SideInv(u, x, s) && s.marks <= marks
    ensures SideInv(u, x, s.(marks := marks, stored := stored))
  {
    hide HostInv, ClientInv;
    if s.host.phase.Offered? {
      var m :| m in s.marks && m.kind.Offer? && m.key == s.host.key && m.terms == s.host.offer;
      assert m in marks;
    }
    if Running(s.client) && s.client.afterSend.AwaitingDone? && s.client.key in u.trusted {
      var m :| m in s.marks && m.kind.Offer? && m.key == s.client.key && m.terms == s.client.terms;
      assert m in marks;
    }
  }

  /** A key derived for a new ephemeral key pair is new. */
  lemma NewKey(s: System, m: Mark, marks: set<Mark>)
    requires NewPair(s, m.terms) && marks == s.marks + {m} && KeysSeparate(marks)
    ensures forall a | a in s.marks :: a.key != m.key
  {
    forall a | a in s.marks ensures a.key != m.key {
      if a.key == m.key {
        assert ContextOf(a) == ContextOf(m);
        ContextInjective(a.terms, a.nodePublic, m.terms, m.nodePublic);
        assert false;
      }
    }
  }

  lemma OfferAdded(u: Setup, marks: set<Mark>, stored: set<Mark>, m: Mark)
    requires MarksInv(u, marks, stored) && m.kind.Offer? && m.terms.profile == PAIRING_PROFILE
    requires forall a | a in marks :: a.key != m.key
    ensures MarksInv(u, marks + {m}, stored)
  {
    forall a | a in stored ensures OfferMade(marks + {m}, a.key, a.terms) {
      var b :| b in marks && b.kind.Offer? && b.key == a.key && b.terms == a.terms;
      assert b in marks + {m};
    }
  }

  lemma ConfirmAdded(u: Setup, marks: set<Mark>, stored: set<Mark>, more: set<Mark>)
    requires MarksInv(u, marks, stored) && forall m | m in more :: m.kind.Confirm? && m.terms.profile == PAIRING_PROFILE
    ensures MarksInv(u, marks + more, stored)
  {
    forall a | a in stored ensures OfferMade(marks + more, a.key, a.terms) {
      var b :| b in marks && b.kind.Offer? && b.key == a.key && b.terms == a.terms;
      assert b in marks + more;
    }
  }

  lemma DoneAdded(u: Setup, marks: set<Mark>, stored: set<Mark>, m: Mark)
    requires MarksInv(u, marks, stored) && m.kind.Done? && m.terms.profile == PAIRING_PROFILE
      && OfferMade(marks, m.key, m.terms)
    ensures MarksInv(u, marks + {m}, stored + {m})
  {
    forall a | a in stored + {m} ensures OfferMade(marks + {m}, a.key, a.terms) {
      var b :| b in marks && b.kind.Offer? && b.key == a.key && b.terms == a.terms;
      assert b in marks + {m};
    }
  }

  lemma ClickKeeps(u: Setup, x: Agreement, s: System, node: u64, now: u32, draw: Draw, t: System)
    requires SystemOk(u, x, s) && HostClicks(u, x, s, node, now, draw, t) && KeysSeparate(t.marks)
    ensures SystemOk(u, x, t)
  {
    var m := s.w.rx.m;
    var free := FreeSlotsIn(m);
    AcceptPins(s.host, x, u.rx.c, m, free, u.rx.device, node, now, draw, s.pin);
    RefusedClick(s.host, x, u.rx.c, m, free, u.rx.device, node, now, draw);
    ClickedTerms(s.host, x, u.rx.c, m, free, u.rx.device, node, now, draw);
    hide WorldInv, HostInv, ClientInv, AfterAccept, FreeSlotsIn;
    var (h, result) := AfterAccept(s.host, x, u.rx.c, m, free, u.rx.device, node, now, draw);
    if result == Ok {
      var mark := Mark(h.key, Offer, h.offer, t.pin.public);
      NewKey(s, mark, t.marks);
      OfferAdded(u, s.marks, s.stored, mark);
      MoreMarks(u, x, s, t.marks, s.stored);
      assert mark in t.marks;
    }
  }

  lemma RefusedClick(h: Host, x: Agreement, c: Crypto, m: Mem, free: nat, device: u64, node: u64, now: u32, draw: Draw)
    ensures
      var (t, result) := AfterAccept(h, x, c, m, free, device, node, now, draw);
      result != Ok && t.phase.Offered? ==> h.phase.Offered? && t.key == h.key && t.offer == h.offer
  {
    hide BuildOffer, KeyFor, TermsOf;
  }

  lemma ClickedTerms(h: Host, x: Agreement, c: Crypto, m: Mem, free: nat, device: u64, node: u64, now: u32, draw: Draw)
    ensures
      var (t, result) := AfterAccept(h, x, c, m, free, device, node, now, draw);
      result == Ok ==> t.phase.Offered? && t.offer.profile == PAIRING_PROFILE
  {
    hide BuildOffer, KeyFor;
  }

  lemma HearsKeeps(u: Setup, x: Agreement, s: System, f: Frame, rssi: i16, now: u32, ok: bool, ss: seq<State>,
                   es: seq<Event>, t: System)
    requires SystemOk(u, x, s) && HostMoves(u, x, s, f, rssi, now, ok, ss, es, t)
    ensures SystemOk(u, x, t)
  {
    var r := React(u.rx.c, u.rx.device, s.host, f, rssi, now);
    ReactKeeps(s.host, x, u.rx.c, u.rx.device, s.pin, f, rssi, now);
    ReactedOffer(u.rx.c, u.rx.device, s.host, f, rssi, now);
    CompletesKeeps(r.host, x, u.rx.c, u.rx.device, s.pin, now);
    ConfirmedProfile(r.host, x, u.rx.c, u.rx.device, s.pin);
    hide WorldInv, HostInv, ClientInv, React, Stretch;
    if r.Confirmed? {
      HostStretchKeeps(u, s.w, ss, es, r.host.offer.node, r.host.offer.generation, |es|);
      if ok {
        var done := Mark(r.host.key, PairingType.Done, r.host.offer, s.pin.public);
        DoneAdded(u, s.marks, s.stored, done);
        MoreMarks(u, x, s, t.marks, t.stored);
      }
    }
  }

  lemma ReactedOffer(c: Crypto, device: u64, h: Host, f: Frame, rssi: i16, now: u32)
    ensures
      var r := React(c, device, h, f, rssi, now);
      && (r.host.phase.Offered? ==> h.phase.Offered? && r.host.key == h.key && r.host.offer == h.offer)
      && (r.Confirmed? ==> r.host.phase.Offered?)
  {
    hide VerifyTagged, UntrustedType, ParseRequest, Listed;
  }

  lemma ConfirmedProfile(h: Host, x: Agreement, c: Crypto, device: u64, pin: Pin)
    requires HostInv(h, x, c, device, pin)
    ensures h.phase.Offered? ==> h.offer.profile == PAIRING_PROFILE
  {
  }

  /** A genuine offer under a trusted key carries the terms of an offer the host made. */
  lemma HeardTerms(u: Setup, x: Agreement, s: System, k: Client, f: Frame)
    requires MarksInv(u, s.marks, s.stored) && ForUs(x, u.rx.c, k, u.tx.device, f)
    requires Made(u, s, ClientKey(x, k, u.tx.device, ParseOffer(f).value).value, f)
    ensures
      var key := ClientKey(x, k, u.tx.device, ParseOffer(f).value).value;
      key in u.trusted ==> OfferMade(s.marks, key, ParseOffer(f).value)
  {
    var key := ClientKey(x, k, u.tx.device, ParseOffer(f).value).value;
    if key in u.trusted {
      var m :| m in s.marks && m.key == key && MarkFrame(u.rx.c, m) == f;
      FrameKind(u.rx.c, m);
      OfferReads(u.rx.c, m.terms, key, f);
    }
  }

  lemma OfferReads(c: Crypto, o: Terms, key: Key, f: Frame)
    requires f == OfferBody(o) + TagFor(c, key, Offer, o.nonce, OfferBody(o)) && ParseOffer(f).Some?
    ensures ParseOffer(f) == Some(o)
  {
    var tag := TagFor(c, key, Offer, o.nonce, OfferBody(o));
    var payload := o.receiverPublic + Be(o.receiver, 8) + Be(o.generation, 8) + Be(o.profile, 2);
    Assoc(PairingHeader(Offer, o.network, o.node, o.nonce, 50), payload, tag);
    HeaderReadsBack(Offer, o.network, o.node, o.nonce, 50, payload + tag);
    OfferFields(o, tag);
  }

  /** Polling changes what was agreed only by hearing an offer. */
  lemma AgreedBy(x: Agreement, c: Crypto, k: Client, m: Mem, device: u64, r: Radio, now: u32)
    requires ClientInv(k, x, c, device)
    ensures
      var t := Decide(x, c, k, m, device, r, now).client;
      Running(t) && t.afterSend.AwaitingDone? ==>
        || (Running(k) && k.afterSend.AwaitingDone? && t.key == k.key && t.terms == k.terms)
        || (k.phase.Listening? && r.heard.Frame? && ForUs(x, c, k, device, r.heard.f)
            && t.terms == ParseOffer(r.heard.f).value && t.key == ClientKey(x, k, device, t.terms).value)
  {
    hide VerifyTagged, VerifyOffer, DeriveBindingKey, TaggedFrame, BuildRequest, UntrustedType, ParseOffer;
  }

  lemma PollKeeps(u: Setup, x: Agreement, s: System, r: Radio, now: u32, ok: bool, ss: seq<State>, es: seq<Event>,
                  t: System)
    requires SystemOk(u, x, s) && ClientMoves(u, x, s, r, now, ok, ss, es, t)
    ensures SystemOk(u, x, t)
  {
    var c, device, k := u.tx.c, u.tx.device, s.client;
    assert u.rx.c == u.tx.c;
    var d := Decide(x, c, k, s.w.tx.m, device, r, now);
    DecideKeeps(x, c, k, s.w.tx.m, device, r, now);
    AgreedBy(x, c, k, s.w.tx.m, device, r, now);
    EndedKeeps(x, c, k, device);
    hide WorldInv, HostInv, ClientInv, Decide, Stretch, ForUs, ClientKey, ParseOffer;
    if d.Stay? {
      var more := Sealed(x, c, k, s.w.tx.m, device, r);
      SealedConfirms(x, c, k, s.w.tx.m, device, r);
      ConfirmAdded(u, s.marks, s.stored, more);
      MoreMarks(u, x, s, t.marks, s.stored);
      if r.heard.Frame? && k.phase.Listening? && ForUs(x, c, k, device, r.heard.f) {
        HeardTerms(u, x, s, k, r.heard.f);
        MoreOffers(s.marks, t.marks);
      }
    } else {
      NodeStretchKeeps(u, s.w, ss, es, k.terms.node, k.terms.generation, |es|);
    }
  }

  lemma MoreOffers(a: set<Mark>, b: set<Mark>)
    requires a <= b
    ensures forall key, o | OfferMade(a, key, o) :: OfferMade(b, key, o)
  {
    forall key, o | OfferMade(a, key, o) ensures OfferMade(b, key, o) {
      var m :| m in a && m.kind.Offer? && m.key == key && m.terms == o;
      assert m in b;
    }
  }

  lemma SealedConfirms(x: Agreement, c: Crypto, k: Client, m: Mem, device: u64, r: Radio)
    ensures forall a | a in Sealed(x, c, k, m, device, r) :: a.kind.Confirm? && a.terms.profile == PAIRING_PROFILE
  {
    hide VerifyOffer, DeriveBindingKey;
  }

  lemma WindowKeeps(u: Setup, x: Agreement, s: System, open: bool, now: u32, t: System)
    requires SystemOk(u, x, s)
    requires t == s.(host := if open then Opened(s.host, now) else Shut(s.host)) || t == s.(host := Polled(s.host, now))
      || t == s.(host := NEW_HOST)
    ensures SystemOk(u, x, t)
  {
    hide WorldInv, ClientInv, MarksInv, BuildOffer, KeyFor;
  }

  lemma StartKeeps(u: Setup, x: Agreement, s: System, k: Client, t: System)
    requires SystemOk(u, x, s) && t == s.(client := k) && ClientInv(k, x, u.tx.c, u.tx.device)
    requires Running(k) && k.afterSend.AwaitingDone? ==>
      Running(s.client) && s.client.afterSend.AwaitingDone? && k.key == s.client.key && k.terms == s.client.terms
    ensures SystemOk(u, x, t)
  {
    hide WorldInv, HostInv, ClientInv, MarksInv;
  }

  lemma StartedFresh(x: Agreement, k: Client, m: Mem, free: nat, device: u64, b: Beginning, r: Radio, now: u32)
    ensures
      var t := Starts(x, k, m, free, true, device, b, r, now);
      Running(t) ==> t.afterSend.Listening?
  {
  }

  lemma MoveKeeps(u: Setup, x: Agreement, s: System, a: Move, t: System)
    requires SystemOk(u, x, s) && Moves(u, x, s, a, t)
    ensures SystemOk(u, x, t)
  {
    match a
    case Deliver(action) => DeliverKeeps(u, x, s, action, t);
    case HostWindow(open, now) => WindowKeeps(u, x, s, open, now, t);
    case HostClick(node, now, draw) => ClickKeeps(u, x, s, node, now, draw, t);
    case HostHears(f, rssi, now, ok, ss, es) => HearsKeeps(u, x, s, f, rssi, now, ok, ss, es, t);
    case HostRestart => WindowKeeps(u, x, s, true, 0, t);
    case ClientStarts(b, r, now) =>
      var m := s.w.tx.m;
      var free := FreeSlotsIn(m);
      StartsKeeps(x, u.tx.c, s.client, m, free, true, u.tx.device, b, r, now);
      StartedFresh(x, s.client, m, free, u.tx.device, b, r, now);
      StartKeeps(u, x, s, Starts(x, s.client, m, free, true, u.tx.device, b, r, now), t);
    case ClientPolls(r, now, ok, ss, es) => PollKeeps(u, x, s, r, now, ok, ss, es, t);
    case ClientRestart => StartKeeps(u, x, s, NEW_CLIENT, t);
  }

  lemma DeliverKeeps(u: Setup, x: Agreement, s: System, a: Action, t: System)
    requires SystemOk(u, x, s) && Next(u, s.w, a, t.w) && t == s.(w := t.w)
    ensures SystemOk(u, x, t)
  {
    hide WorldInv, Next, HostInv, ClientInv, MarksInv;
    NextKeeps(u, s.w, a, t.w);
  }

  /** Over every run of the whole system. */
  lemma {:induction false} EverySystem(u: Setup, x: Agreement, ss: seq<System>, moves: seq<Move>, n: nat)
    requires SystemRun(u, x, ss, moves) && n < |ss| && SystemOk(u, x, ss[0])
    ensures SystemOk(u, x, ss[n])
  {
    hide SystemOk, Moves;
    if n != 0 {
      EverySystem(u, x, ss, moves, n - 1);
      assert Moves(u, x, ss[n - 1], moves[n - 1], ss[n]);
      MoveKeeps(u, x, ss[n - 1], moves[n - 1], ss[n]);
    }
  }

  /** Two devices before their first exchange, the receiver new or migrated. */
  lemma StartingSystem(u: Setup, x: Agreement, rx: State, tx: State, pin: Pin)
    requires u.rx.role.Receiver? && u.tx.role.Transmitter? && u.rx.c == u.tx.c && u.rx.device != 0
    requires SystemInv(u.rx, rx.m, rx.d, rx.h) && SystemInv(u.tx, tx.m, tx.d, tx.h) && rx.h.origin.base == |rx.h.log|
    requires forall a | a in rx.h.origin.carried :: Floor(tx.d, tx.h, a.key, a.counter)
    ensures forall a | a in rx.h.origin.carried :: Opens(u.rx.c, a)
    ensures
      var sealed := CarriedSealings(u.rx.c, rx.h.origin.carried);
      SystemOk(u, x, System(World(rx, tx, IDLE_SENDER, sealed), NEW_HOST, pin, NEW_CLIENT, {}, {}))
  {
    StartingWorld(u, rx, tx);
    hide WorldInv, SystemInv;
  }

  // ------------------------------------------------------------------ agreement

  /** A valid completion under a trusted key answers a binding the host had stored. */
  lemma CompletionIsStored(u: Setup, x: Agreement, s: System, r: Radio, now: u32)
    requires SystemOk(u, x, s) && s.client.key in u.trusted
    requires Decide(x, u.tx.c, s.client, s.w.tx.m, u.tx.device, r, now).Store? && r.heard.Frame?
    requires Made(u, s, s.client.key, r.heard.f)
    ensures exists m :: m in s.stored && m.key == s.client.key && m.terms == s.client.terms
  {
    var k, c := s.client, u.tx.c;
    assert u.rx.c == c;
    DecideKeeps(x, c, k, s.w.tx.m, u.tx.device, r, now);
    StoreAwaits(x, c, k, s.w.tx.m, u.tx.device, r, now);
    var m :| m in s.marks && m.key == k.key && MarkFrame(c, m) == r.heard.f;
    hide WorldInv, HostInv, ClientInv, Decide, Agreed;
    FrameKind(c, m);
    TaggedKind(c, PairingType.Done, k.terms.network, u.tx.device, k.nonce, k.key);
    assert m.kind.Done?;
    OneOfferEach(u, s.marks, s.stored, m, k.key, k.terms);
  }

  lemma StoreAwaits(x: Agreement, c: Crypto, k: Client, m: Mem, device: u64, r: Radio, now: u32)
    requires ClientInv(k, x, c, device) && Decide(x, c, k, m, device, r, now).Store?
    ensures Running(k) && k.afterSend.AwaitingDone?
  {
    hide VerifyTagged, VerifyOffer, DeriveBindingKey, TaggedFrame, BuildRequest, UntrustedType, ParseOffer;
  }

  lemma OneOfferEach(u: Setup, marks: set<Mark>, stored: set<Mark>, m: Mark, key: Key, o: Terms)
    requires MarksInv(u, marks, stored) && m in marks && m.kind.Done? && m.key == key && OfferMade(marks, key, o)
    ensures m in stored && m.terms == o
  {
    var a :| a in marks && a.kind.Offer? && a.key == key && a.terms == o;
    assert OfferMade(marks, m.key, m.terms);
    var b :| b in marks && b.kind.Offer? && b.key == m.key && b.terms == m.terms;
  }

  /** A binding is among the stored ones only since the host's store had it, active. */
  lemma {:induction false} StoredBefore(u: Setup, x: Agreement, ss: seq<System>, moves: seq<Move>, n: nat, m: Mark)
    returns (j: nat)
    requires SystemRun(u, x, ss, moves) && n < |ss| && ss[0].stored == {} && m in ss[n].stored
    ensures j < n && InService(ss[j + 1].w.rx.m, CredentialOf(m.terms, m.key))
  {
    hide Moves, InService;
    assert Moves(u, x, ss[n - 1], moves[n - 1], ss[n]);
    if m in ss[n - 1].stored {
      j := StoredBefore(u, x, ss, moves, n - 1, m);
    } else {
      j := n - 1;
      NewlyStored(u, x, ss[j], moves[j], ss[n], m);
    }
  }

  lemma NewlyStored(u: Setup, x: Agreement, s: System, a: Move, t: System, m: Mark)
    requires Moves(u, x, s, a, t) && m in t.stored && m !in s.stored
    ensures InService(t.w.rx.m, CredentialOf(m.terms, m.key))
  {
    hide React, Next, AfterAccept, Decide, Starts, Stretch, InService;
  }

  /** A client becomes paired only by storing a completion it heard. */
  lemma PairedByStoring(u: Setup, x: Agreement, s: System, r: Radio, now: u32, ok: bool, ss: seq<State>,
                        es: seq<Event>, t: System)
    requires SystemOk(u, x, s) && ClientMoves(u, x, s, r, now, ok, ss, es, t) && ok
    requires !s.client.phase.InNetwork? && t.client.phase.InNetwork?
    ensures Decide(x, u.tx.c, s.client, s.w.tx.m, u.tx.device, r, now).Store? && r.heard.Frame?
    ensures Made(u, s, s.client.key, r.heard.f)
    ensures InService(t.w.tx.m, CredentialOf(s.client.terms, s.client.key))
  {
    assert ClientInv(s.client, x, u.tx.c, u.tx.device);
    hide SystemOk, InService, Made, Between, Sealed, ForUs;
    NotPairedOtherwise(x, u.tx.c, s.client, s.w.tx.m, u.tx.device, r, now);
    StoreHeard(x, u.tx.c, s.client, s.w.tx.m, u.tx.device, r, now);
    hide Decide;
  }

  /**
   * Pairing agreement: when the node ends paired under a trusted key, its store has the binding
   * active, and at an earlier point of the run the receiver's store had the same network,
   * receiver, node, generation and key active.
   */
  lemma PairedAgree(u: Setup, x: Agreement, ss: seq<System>, moves: seq<Move>, n: nat) returns (j: nat)
    requires SystemRun(u, x, ss, moves) && n < |moves| && SystemOk(u, x, ss[0]) && ss[0].stored == {}
    requires moves[n].ClientPolls? && moves[n].ok && ss[n].client.key in u.trusted
    requires !ss[n].client.phase.InNetwork? && ss[n + 1].client.phase.InNetwork?
    ensures j < n
    ensures InService(ss[j + 1].w.rx.m, CredentialOf(ss[n].client.terms, ss[n].client.key))
    ensures InService(ss[n + 1].w.tx.m, CredentialOf(ss[n].client.terms, ss[n].client.key))
  {
    hide SystemOk, InService;
    EverySystem(u, x, ss, moves, n);
    var s, a, t := ss[n], moves[n], ss[n + 1];
    assert Moves(u, x, s, a, t);
    hide SystemRun;
    PairedByStoring(u, x, s, a.r, a.now, a.ok, a.ss, a.es, t);
    CompletionIsStored(u, x, s, a.r, a.now);
    var m :| m in s.stored && m.key == s.client.key && m.terms == s.client.terms;
    j := StoredBefore(u, x, ss, moves, n, m);
  }

  lemma StoreHeard(x: Agreement, c: Crypto, k: Client, m: Mem, device: u64, r: Radio, now: u32)
    ensures Decide(x, c, k, m, device, r, now).Store? ==> r.heard.Frame?
  {
    hide VerifyTagged, VerifyOffer, DeriveBindingKey, TaggedFrame, UntrustedType, ParseOffer, OfferHeard;
  }

  /** Polling alone never ends in the network. */
  lemma NotPairedOtherwise(x: Agreement, c: Crypto, k: Client, m: Mem, device: u64, r: Radio, now: u32)
    requires !k.phase.InNetwork?
    ensures
      var d := Decide(x, c, k, m, device, r, now);
      d.Stay? && k.phase.Sending? ==> d.client.phase == k.afterSend || !d.client.phase.InNetwork?
    ensures
      var d := Decide(x, c, k, m, device, r, now);
      d.Stay? && !k.phase.Sending? ==> !d.client.phase.InNetwork?
  {
    hide VerifyTagged, VerifyOffer, DeriveBindingKey, TaggedFrame, UntrustedType, ParseOffer;
  }

  // ------------------------------------------------------------------ nonces of the whole system

  /** Any encryption of the system: a DATA or ACK frame, or a pairing tag. */
  datatype Encryption = OfFrame(x: Sealing) | OfTag(m: Mark)

  function KeyOf(e: Encryption): Key { match e case OfFrame(x) => x.b.key case OfTag(m) => m.key }

  function GcmNonce(e: Encryption): seq<byte>
  {
    match e case OfFrame(x) => NonceOf(x.m) case OfTag(m) => PairingNonce(m.kind, m.terms.nonce)
  }

  function HeaderIn(e: Encryption): seq<byte>
    requires e.OfFrame? ==> Sane(e.x)
  {
    match e case OfFrame(x) => HeaderOf(x.b, x.m) case OfTag(m) => Authenticated(m)
  }

  function PlainIn(e: Encryption): seq<byte>
    requires e.OfFrame? ==> Sane(e.x)
  {
    match e case OfFrame(x) => Payload(x.m) case OfTag(_) => []
  }

  ghost predicate Encrypted(s: System, e: Encryption)
  {
    match e case OfFrame(x) => x in s.w.sealed case OfTag(m) => m in s.marks
  }

  lemma MarksApart(u: Setup, s: System, a: Mark, b: Mark)
    requires MarksInv(u, s.marks, s.stored) && KeysSeparate(s.marks) && a in s.marks && b in s.marks
    requires a.key == b.key && PairingNonce(a.kind, a.terms.nonce) == PairingNonce(b.kind, b.terms.nonce)
    ensures Authenticated(a) == Authenticated(b)
  {
    NonceInjective(TypeByte(a.kind), WIRE_V1, a.terms.nonce, TypeByte(b.kind), WIRE_V1, b.terms.nonce);
    assert ContextOf(a) == ContextOf(b);
    ContextInjective(a.terms, a.nodePublic, b.terms, b.nodePublic);
  }

  lemma KindsApart(u: Setup, s: System, x: Sealing, m: Mark)
    requires MarksInv(u, s.marks, s.stored) && m in s.marks
    ensures NonceOf(x.m) != PairingNonce(m.kind, m.terms.nonce)
  {
    assert NonceOf(x.m)[2] == KindByte(x.m.kind) && PairingNonce(m.kind, m.terms.nonce)[2] == TypeByte(m.kind);
  }

  /**
   * Whole-system nonce safety: over every run with crashes, re-pairing, revocation and reset,
   * across OFFER, CONFIRM, DONE, DATA and ACK, no key encrypts two different header and
   * payload pairs under one nonce (section 8 of NIST SP 800-38D).
   */
  lemma WholeSystemNonces(u: Setup, x: Agreement, ss: seq<System>, moves: seq<Move>, n: nat, d: Encryption,
                          e: Encryption)
    requires SystemRun(u, x, ss, moves) && n < |ss| && SystemOk(u, x, ss[0]) && KeysSeparate(ss[n].marks)
    requires Encrypted(ss[n], d) && Encrypted(ss[n], e) && KeyOf(d) == KeyOf(e) && GcmNonce(d) == GcmNonce(e)
    ensures (d.OfFrame? ==> Sane(d.x)) && (e.OfFrame? ==> Sane(e.x))
    ensures HeaderIn(d) == HeaderIn(e) && PlainIn(d) == PlainIn(e)
  {
    EverySystem(u, x, ss, moves, n);
    var s := ss[n];
    if d.OfFrame? && e.OfFrame? {
      SealingsApart(u, s.w, d.x, e.x);
    } else if d.OfTag? && e.OfTag? {
      MarksApart(u, s, d.m, e.m);
    } else if d.OfFrame? {
      KindsApart(u, s, d.x, e.m);
      assert false;
    } else {
      KindsApart(u, s, e.x, d.m);
      assert false;
    }
  }
}
