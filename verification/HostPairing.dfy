// The receiver's side of radio pairing (`PairingHost`): a window, a list of candidates whose
// keys are pinned, one offer, and the last completed exchange.
module HostPairing {
  import opened Protocol
  import opened Codec
  import opened Records
  import opened Store
  import opened StoreOps
  import opened StoreRuns
  import opened StoreObject
  import opened StoreLaws
  import opened Pairing
  import opened PairingStore
  import opened Clocks

  const MAX_CANDIDATES := 4
  const PAIRING_WINDOW_MS := 120000
  const DONE_REPLAY_MS := 15000
  const MAX_DONE_REPLIES := 5

  datatype Phase = Closed | Open | Offered | Paired

  datatype Candidate = Candidate(
    node: u64, nonce: u64, public: XKey, rssi: i16, seenAt: u32, conflict: bool, joined: bool)

  datatype Completed = Completed(network: u64, node: u64, nonce: u64, key: Key, done: Frame, at: u32, replies: nat)

  const NOT_COMPLETED := Completed(0, 0, 0, ZERO16, [], 0, 0)

  datatype Host = Host(
    phase: Phase, openedAt: u32, candidates: seq<Candidate>, offer: Terms, key: Key, offerFrame: Frame,
    paired: u64, last: Completed)

  const NEW_HOST := Host(Closed, 0, [], NO_TERMS, ZERO16, [], 0, NOT_COMPLETED)

  // ------------------------------------------------------------------ the window

  function Forgotten(h: Host): Host { h.(last := NOT_COMPLETED) }

  function Dropped(h: Host): Host
  {
    h.(key := ZERO16, offer := NO_TERMS, offerFrame := [],
       phase := if h.phase.Offered? then if h.paired != 0 then Paired else Open else h.phase)
  }

  function Shut(h: Host): Host { Dropped(h).(phase := Closed, candidates := []) }

  function Opened(h: Host, now: u32): Host
  {
    Forgotten(Shut(h)).(phase := Open, openedAt := now, paired := 0)
  }

  function Polled(h: Host, now: u32): Host
  {
    if !h.phase.Closed? && Elapsed(now, h.openedAt) >= PAIRING_WINDOW_MS then Shut(h) else h
  }

  // ------------------------------------------------------------------ candidates

  /** The listed node among the first `n`. */
  function Listed(cs: seq<Candidate>, node: u64, n: nat): (r: Option<nat>)
    requires n <= |cs|
    ensures r.Some? ==> r.value < n && cs[r.value].node == node
    ensures r.None? ==> forall i | 0 <= i < n :: cs[i].node != node
  {
    if n == 0 then None
    else
      var r := Listed(cs, node, n - 1);
      if r.Some? then r else if cs[n - 1].node == node then Some(n - 1) else None
  }

  predicate Differs(c: Candidate, a: Asked) { c.nonce != a.nonce || c.public != a.public }

  function Seen(c: Candidate, a: Asked, rssi: i16, now: u32): Candidate
  {
    var listed := if c.joined && Differs(c, a) then Candidate(a.node, a.nonce, a.public, 0, 0, false, false) else c;
    listed.(conflict := listed.conflict || Differs(listed, a), rssi := rssi, seenAt := now)
  }

  /** `track`: pins the first key seen for a node; whether the request is consistent with it. */
  function Tracked(h: Host, a: Asked, rssi: i16, now: u32): (Host, bool)
  {
    var i := Listed(h.candidates, a.node, |h.candidates|);
    if i.Some? then
      var c := Seen(h.candidates[i.value], a, rssi, now);
      (h.(candidates := h.candidates[i.value := c]), !c.conflict)
    else if |h.candidates| == MAX_CANDIDATES then (h, false)
    else (h.(candidates := h.candidates + [Candidate(a.node, a.nonce, a.public, rssi, now, false, false)]), true)
  }

  // ------------------------------------------------------------------ frames

  /** What `handle` decides; a valid confirmation of the offer goes on to the store. */
  datatype Reaction = Silent(host: Host) | Reply(host: Host, frame: Frame) | Confirmed(host: Host)

  function Expired(h: Host, now: u32): Host
  {
    if h.last.node != 0 && (Elapsed(now, h.last.at) >= DONE_REPLAY_MS || h.last.replies >= MAX_DONE_REPLIES)
    then Forgotten(h) else h
  }

  function Asking(c: Crypto, device: u64, h: Host, f: Frame, rssi: i16, now: u32): Reaction
  {
    var a := ParseRequest(f);
    if a.None? || a.value.node == device then Silent(h)
    else
      var (t, consistent) := Tracked(h, a.value, rssi, now);
      if !t.phase.Offered? || a.value.node != t.offer.node then Silent(t)
      else if !consistent then Silent(Dropped(t))
      else Reply(t, t.offerFrame)
  }

  function React(c: Crypto, device: u64, host: Host, f: Frame, rssi: i16, now: u32): Reaction
  {
    var h := Expired(Polled(host, now), now);
    var kind := UntrustedType(f);
    if kind == 5 && h.last.node != 0 && VerifyTagged(c, f, Confirm, h.last.network, h.last.node, h.last.nonce,
                                                     h.last.key)
    then Reply(h.(last := h.last.(replies := h.last.replies + 1)), h.last.done)
    else if h.phase.Closed? then Silent(h)
    else if kind == 3 then Asking(c, device, h, f, rssi, now)
    else if kind != 5 || !h.phase.Offered?
            || !VerifyTagged(c, f, Confirm, h.offer.network, h.offer.node, h.offer.nonce, h.key) then Silent(h)
    else Confirmed(h)
  }

  function CredentialOf(o: Terms, key: Key): Credential
  {
    Credential(o.network, o.receiver, o.node, o.generation, key, PAIRING_PROFILE)
  }

  function AllJoined(cs: seq<Candidate>, node: u64): (r: seq<Candidate>)
    ensures |r| == |cs|
    ensures forall i | 0 <= i < |cs| :: r[i] == if cs[i].node == node then cs[i].(joined := true) else cs[i]
  {
    if cs == [] then []
    else AllJoined(cs[..|cs| - 1], node) + [if cs[|cs| - 1].node == node then cs[|cs| - 1].(joined := true)
                                            else cs[|cs| - 1]]
  }

  /** After the binding was stored, active. */
  function Completes(c: Crypto, h: Host, now: u32): Host
  {
    var o := h.offer;
    var done := TaggedFrame(c, PairingType.Done, o.network, o.node, o.nonce, h.key);
    Dropped(h.(candidates := AllJoined(h.candidates, o.node),
               last := Completed(o.network, o.node, o.nonce, h.key, done, now, 1),
               paired := o.node)).(phase := Paired)
  }

  // ------------------------------------------------------------------ accept

  /** What the entropy source yields; zero numbers stand for a source that keeps failing. */
  datatype Draw = Draw(private: Option<XKey>, network: u64, generation: u64)

  function TermsOf(h: Host, x: Agreement, m: Mem, device: u64, candidate: Candidate, draw: Draw): Option<Terms>
  {
    if draw.private.None? || x.public(draw.private.value).None? then None
    else Some(Terms(if m.registry.network != 0 then m.registry.network else draw.network, device, candidate.node,
                    candidate.nonce, draw.generation, PAIRING_PROFILE, x.public(draw.private.value).value))
  }

  function KeyFor(x: Agreement, private: XKey, o: Terms, nodePublic: XKey): Option<Key>
  {
    DeriveBindingKey(x, private, nodePublic, o.network, o.receiver, o.node, o.generation, nodePublic, o.receiverPublic)
  }

  /** The offer of fitting terms to a candidate; it replaces any earlier one. */
  function Offering(h: Host, x: Agreement, c: Crypto, o: Terms, candidate: Candidate, draw: Draw): (Host, Result)
    requires draw.private.Some?
  {
    var key := KeyFor(x, draw.private.value, o, candidate.public);
    if key.None? || BuildOffer(c, o, key.value).None? then (h, CryptoError)
    else
      var d := Dropped(h);
      (d.(paired := if d.paired == candidate.node then 0 else d.paired, offer := o, key := key.value,
          offerFrame := BuildOffer(c, o, key.value).value, phase := Offered), Ok)
  }

  /** `accept`, given how many slots are free. */
  function AfterAccept(h0: Host, x: Agreement, c: Crypto, m: Mem, free: nat, device: u64, node: u64, now: u32,
                       draw: Draw): (Host, Result)
  {
    var h := Polled(h0, now);
    if h.phase.Closed? then (h, Result.Invalid)
    else
      var i := Listed(h.candidates, node, |h.candidates|);
      if i.None? then (h, NotFound)
      else if h.candidates[i.value].conflict then (h, Conflict)
      else if free == 0 then (h, if m.health == Ready then Full else StorageError)
      else
        var candidate := h.candidates[i.value];
        var o := TermsOf(h, x, m, device, candidate, draw);
        if o.None? || o.value.network == 0 || o.value.generation == 0 then (h, CryptoError)
        else Offering(h, x, c, o.value, candidate, draw)
  }

  // ------------------------------------------------------------------ what the operator's click pins

  /** The candidate as it was accepted: its key, the host's private key, and whether it had already joined. */
  datatype Pin = Pin(public: XKey, private: XKey, joined: bool)

  ghost predicate Distinct(cs: seq<Candidate>)
  {
    && |cs| <= MAX_CANDIDATES
    && forall i, j | 0 <= i < |cs| && 0 <= j < |cs| && cs[i].node == cs[j].node :: i == j
  }

  /** An open offer is the frame of its terms, under the key derived from the pinned public key. */
  ghost predicate OfferInv(h: Host, x: Agreement, c: Crypto, device: u64, pin: Pin)
  {
    h.phase.Offered? ==>
      && TermsFit(h.offer) && h.offer.receiver == device && h.offer.profile == PAIRING_PROFILE
      && x.public(pin.private) == Some(h.offer.receiverPublic)
      && KeyFor(x, pin.private, h.offer, pin.public) == Some(h.key)
      && BuildOffer(c, h.offer, h.key) == Some(h.offerFrame)
      && Listed(h.candidates, h.offer.node, |h.candidates|).Some?
  }

  /** The candidate under offer is still the one the operator accepted. */
  ghost predicate PinHolds(h: Host, pin: Pin)
  {
    var i := Listed(h.candidates, h.offer.node, |h.candidates|);
    h.phase.Offered? && i.Some? ==>
      var c := h.candidates[i.value];
      !c.conflict && !c.joined && c.public == pin.public && c.nonce == h.offer.nonce
  }

  ghost predicate HostInv(h: Host, x: Agreement, c: Crypto, device: u64, pin: Pin)
  {
    && Distinct(h.candidates)
    && OfferInv(h, x, c, device, pin)
    && (!pin.joined ==> PinHolds(h, pin))
  }

  lemma {:induction false} ListedUnique(cs: seq<Candidate>, node: u64, i: nat, n: nat)
    requires i < n <= |cs| && cs[i].node == node && Distinct(cs)
    ensures Listed(cs, node, n) == Some(i)
  {
    if i < n - 1 {
      ListedUnique(cs, node, i, n - 1);
    }
  }

  lemma TrackedDistinct(h: Host, a: Asked, rssi: i16, now: u32)
    requires Distinct(h.candidates)
    ensures Distinct(Tracked(h, a, rssi, now).0.candidates)
  {
  }

  /** What tracking a request does to the candidate under offer. */
  lemma TrackedOffer(h: Host, a: Asked, rssi: i16, now: u32, node: u64)
    requires Distinct(h.candidates) && Listed(h.candidates, node, |h.candidates|).Some?
    ensures
      var (t, consistent) := Tracked(h, a, rssi, now);
      var i := Listed(h.candidates, node, |h.candidates|).value;
      && Listed(t.candidates, node, |t.candidates|) == Some(i)
      && t.candidates[i] == (if a.node == node then Seen(h.candidates[i], a, rssi, now) else h.candidates[i])
      && (a.node == node ==> consistent == !t.candidates[i].conflict)
  {
    var i := Listed(h.candidates, node, |h.candidates|).value;
    var t := Tracked(h, a, rssi, now).0;
    TrackedDistinct(h, a, rssi, now);
    ListedUnique(t.candidates, node, i, |t.candidates|);
  }

  lemma ReactKeeps(h: Host, x: Agreement, c: Crypto, device: u64, pin: Pin, f: Frame, rssi: i16, now: u32)
    requires HostInv(h, x, c, device, pin)
    ensures HostInv(React(c, device, h, f, rssi, now).host, x, c, device, pin)
  {
    hide BuildOffer, KeyFor, VerifyTagged, UntrustedType, ParseRequest;
    var p := Expired(Polled(h, now), now);
    assert HostInv(p, x, c, device, pin);
    if !p.phase.Closed? && UntrustedType(f) == 3 {
      AskingKeeps(p, x, c, device, pin, f, rssi, now);
    }
  }

  lemma AskingKeeps(h: Host, x: Agreement, c: Crypto, device: u64, pin: Pin, f: Frame, rssi: i16, now: u32)
    requires HostInv(h, x, c, device, pin)
    ensures HostInv(Asking(c, device, h, f, rssi, now).host, x, c, device, pin)
  {
    hide BuildOffer, KeyFor, ParseRequest;
    var a := ParseRequest(f);
    if a.Some? && a.value.node != device {
      TrackedDistinct(h, a.value, rssi, now);
      if h.phase.Offered? {
        TrackedOffer(h, a.value, rssi, now, h.offer.node);
      }
    }
  }

  /** Accepting pins the candidate's key and derives the binding key from it. */
  lemma AcceptPins(h: Host, x: Agreement, c: Crypto, m: Mem, free: nat, device: u64, node: u64, now: u32, draw: Draw,
                   pin: Pin)
    requires HostInv(h, x, c, device, pin)
    requires device != 0
    ensures
      var (t, result) := AfterAccept(h, x, c, m, free, device, node, now, draw);
      if result == Ok then
        var i := Listed(t.candidates, node, |t.candidates|);
        && t.phase.Offered? && t.offer.node == node && i.Some?
        && HostInv(t, x, c, device, Pin(t.candidates[i.value].public, draw.private.value, t.candidates[i.value].joined))
      else HostInv(t, x, c, device, pin)
  {
    hide BuildOffer, KeyFor;
    var (t, result) := AfterAccept(h, x, c, m, free, device, node, now, draw);
    if result == Ok {
      OfferFits(c, t.offer, t.key, t.offerFrame);
    }
  }

  lemma OfferFits(c: Crypto, o: Terms, key: Key, f: Frame)
    requires BuildOffer(c, o, key) == Some(f)
    ensures TermsFit(o)
  {
  }

  /**
   * A differing request for the node under offer withdraws the offer exactly when the listed
   * candidate had not joined: a joined one is listed afresh, and the offer stays.
   */
  lemma DifferingRequest(h: Host, x: Agreement, c: Crypto, device: u64, pin: Pin, f: Frame, rssi: i16, now: u32)
    requires HostInv(h, x, c, device, pin) && h.phase.Offered? && Polled(h, now) == h
    requires UntrustedType(f) == 3 && ParseRequest(f).Some? && ParseRequest(f).value.node == h.offer.node != device
    requires
      var cand := h.candidates[Listed(h.candidates, h.offer.node, |h.candidates|).value];
      Differs(cand, ParseRequest(f).value) && !cand.conflict
    ensures React(c, device, h, f, rssi, now).host.phase.Offered?
       <==> h.candidates[Listed(h.candidates, h.offer.node, |h.candidates|).value].joined
  {
    hide BuildOffer, KeyFor, VerifyTagged, UntrustedType, ParseRequest;
    var p := Expired(h, now);
    TrackedOffer(p, ParseRequest(f).value, rssi, now, h.offer.node);
  }

  /**
   * So for a candidate that had not joined when it was accepted, an offer that is still open
   * met no request but the accepted one; the binding key comes from its key either way.
   */
  lemma ConfirmedIsPinned(h: Host, x: Agreement, c: Crypto, device: u64, pin: Pin, f: Frame, rssi: i16, now: u32)
    requires HostInv(h, x, c, device, pin) && React(c, device, h, f, rssi, now).Confirmed?
    ensures
      var t := React(c, device, h, f, rssi, now).host;
      && t.phase.Offered? && t.offer == h.offer && t.key == h.key
      && KeyFor(x, pin.private, t.offer, pin.public) == Some(t.key)
      && f == TaggedFrame(c, Confirm, t.offer.network, t.offer.node, t.offer.nonce, t.key)
      && (!pin.joined ==> PinHolds(t, pin))
  {
    hide BuildOffer, KeyFor, UntrustedType, ParseRequest;
    TaggedIff(c, f, Confirm, h.offer.network, h.offer.node, h.offer.nonce, h.key);
  }

  /** A completed exchange: the host and the frame it handled, and memory once the binding was stored. */
  datatype Proof = Proof(host: Host, pin: Pin, frame: Frame, rssi: i16, at: u32, m: Mem)

  /** The frame confirmed the host's open offer, and the binding was then in service. */
  ghost predicate Proven(x: Agreement, c: Crypto, device: u64, p: Proof)
  {
    && HostInv(p.host, x, c, device, p.pin)
    && React(c, device, p.host, p.frame, p.rssi, p.at).Confirmed?
    && InService(p.m, CredentialOf(p.host.offer, p.host.key))
  }

  // ------------------------------------------------------------------ since the operator's click

  datatype Input = Input(f: Frame, rssi: i16, now: u32)

  ghost predicate RequestFor(f: Frame, node: u64) { UntrustedType(f) == 3 && ParseRequest(f).Some?
                                                   && ParseRequest(f).value.node == node }

  /** The host after each frame it handled, none of which confirmed the offer. */
  function After(c: Crypto, device: u64, h: Host, inputs: seq<Input>): Host
  {
    if inputs == [] then h
    else
      var i := inputs[|inputs| - 1];
      React(c, device, After(c, device, h, inputs[..|inputs| - 1]), i.f, i.rssi, i.now).host
  }

  /** Only accepting opens an offer, or replaces it. */
  lemma NeverReopens(c: Crypto, device: u64, h: Host, i: Input)
    requires React(c, device, h, i.f, i.rssi, i.now).host.phase.Offered?
    ensures h.phase.Offered? && React(c, device, h, i.f, i.rssi, i.now).host.offer == h.offer
  {
    hide VerifyTagged, UntrustedType, ParseRequest, Listed;
  }

  lemma StillOffered(h: Host, x: Agreement, c: Crypto, device: u64, pin: Pin, i: Input)
    requires HostInv(h, x, c, device, pin) && !pin.joined && device != h.offer.node
    requires React(c, device, h, i.f, i.rssi, i.now).host.phase.Offered?
    ensures RequestFor(i.f, h.offer.node) ==>
      ParseRequest(i.f).value == Asked(h.offer.node, h.offer.nonce, pin.public)
  {
    hide BuildOffer, KeyFor, VerifyTagged, UntrustedType, ParseRequest;
    var p := Expired(Polled(h, i.now), i.now);
    if p.phase.Offered? && RequestFor(i.f, h.offer.node) {
      TrackedOffer(p, ParseRequest(i.f).value, i.rssi, i.now, h.offer.node);
    }
  }

  /**
   * While an offer to a candidate that had not joined stays open, every request that arrived
   * for its node carried the attempt and the key the operator accepted.
   */
  lemma {:induction false} NoDifferingRequest(h: Host, x: Agreement, c: Crypto, device: u64, pin: Pin,
                                              inputs: seq<Input>, k: nat)
    requires HostInv(h, x, c, device, pin) && !pin.joined && device != h.offer.node
    requires After(c, device, h, inputs).phase.Offered?
    ensures HostInv(After(c, device, h, inputs), x, c, device, pin)
    ensures h.phase.Offered? && After(c, device, h, inputs).offer == h.offer
    ensures k < |inputs| && RequestFor(inputs[k].f, h.offer.node) ==>
      ParseRequest(inputs[k].f).value == Asked(h.offer.node, h.offer.nonce, pin.public)
  {
    hide React, HostInv, RequestFor, ParseRequest;
    if inputs != [] {
      var n := |inputs| - 1;
      var before := After(c, device, h, inputs[..n]);
      NeverReopens(c, device, before, inputs[n]);
      NoDifferingRequest(h, x, c, device, pin, inputs[..n], k);
      StillOffered(before, x, c, device, pin, inputs[n]);
      ReactKeeps(before, x, c, device, pin, inputs[n].f, inputs[n].rssi, inputs[n].now);
    }
  }

  lemma {:induction false} ListedFirst(cs: seq<Candidate>, node: u64, i: nat, n: nat)
    requires i < n <= |cs| && Listed(cs, node, i).None? && cs[i].node == node
    ensures Listed(cs, node, n) == Some(i)
  {
    if i < n - 1 {
      ListedFirst(cs, node, i, n - 1);
    }
  }

  lemma ExpiredKeeps(h: Host, x: Agreement, c: Crypto, device: u64, pin: Pin, now: u32)
    requires HostInv(h, x, c, device, pin)
    ensures HostInv(Expired(Polled(h, now), now), x, c, device, pin)
  {
  }

  lemma CompletesKeeps(h: Host, x: Agreement, c: Crypto, device: u64, pin: Pin, now: u32)
    requires HostInv(h, x, c, device, pin)
    ensures HostInv(Completes(c, h, now), x, c, device, pin)
  {
  }

  lemma OfferingKeepsList(h: Host, x: Agreement, c: Crypto, candidate: Candidate, draw: Draw)
    ensures draw.private.Some? ==> forall o :: Offering(h, x, c, o, candidate, draw).0.candidates == h.candidates
  {
    hide BuildOffer, KeyFor;
  }

  /** An offer to the paired node takes that back, and leaves another one's. */
  lemma OfferingPairs(h: Host, x: Agreement, c: Crypto, candidate: Candidate, draw: Draw)
    ensures draw.private.Some? ==> forall o ::
      var (t, result) := Offering(h, x, c, o, candidate, draw);
      t.paired == if result == Ok && h.paired == candidate.node then 0 else h.paired
  {
    hide BuildOffer, KeyFor;
  }

  lemma PrivateDrawn(h: Host, x: Agreement, m: Mem, device: u64, draw: Draw)
    ensures forall candidate :: TermsOf(h, x, m, device, candidate, draw).Some? ==> draw.private.Some?
  {
  }

  lemma AlongsideOk(cfg: Config, s: State, x: Credential, t: State, result: Result)
    requires SystemInv(cfg, s.m, s.d, s.h) && Enrolled(s.m, x)
    requires Followed(cfg, s, OpAlongside(x.node, x.generation), t, result)
    ensures result == Ok ==> InService(t.m, x)
  {
    if result == Ok {
      hide SystemInv, AlongsidePlan, InService, Enrolled;
      FinishedOk(cfg, s, OpAlongside(x.node, x.generation), t);
      ActivatePlanned(cfg, s, x.node, x.generation);
      AlongsideMeans(cfg, s, x);
    }
  }

  /** A receiver with room for the credential. */
  ghost predicate CanStore(cfg: Config, s: State, x: Credential) { cfg.role.Receiver? && Joinable(cfg, s, x) }

  /** A prepared credential is taken into service when no write fails. */
  lemma AlongsideServes(cfg: Config, s: State, x: Credential, t: State, result: Result)
    requires SystemInv(cfg, s.m, s.d, s.h) && Enrolled(s.m, x) && cfg.role.Receiver?
    requires s.m.registry.revision < UINT64_MAX
    requires Faultless(cfg, s, OpAlongside(x.node, x.generation), t, result)
    ensures result == Ok
  {
    hide SystemInv, Faultless;
    var i: nat :| i < BINDING_CAPACITY && Carries(s.m.registry.entries[i], x)
      && !s.m.registry.entries[i].state.Revoked?;
    assert Registered(s, x.node, x.generation, i);
    AlongsideLaw(cfg, s, x.node, x.generation, t, result, i);
  }

  // ------------------------------------------------------------------ the object

  class PairingHost {
    const store: PersistentStore
    const agreement: Agreement
    var phase: Phase
    var openedAt: u32
    var candidates: seq<Candidate>
    var offer: Terms
    var key: Key
    var offerFrame: Frame
    var paired: u64
    var last: Completed
    /** What the operator's click pinned; not stored. */
    ghost var pin: Pin
    /** Every exchange completed, which of them made `paired`, and how many there were when a node was last accepted. */
    ghost var proofs: seq<Proof>
    ghost var pairedBy: nat
    ghost var acceptedAt: map<u64, nat>

    ghost function Now(): Host
      reads this
    {
      Host(phase, openedAt, candidates, offer, key, offerFrame, paired, last)
    }

    ghost predicate Valid()
      reads this, store, store.records
    {
      && store.Valid() && store.cfg.device != 0
      && HostInv(Now(), agreement, store.cfg.c, store.cfg.device, pin)
      && Traced()
    }

    /** The paired node completed an exchange, after it was last accepted. */
    ghost predicate Traced()
      reads this, store
    {
      && (forall i | 0 <= i < |proofs| :: Proven(agreement, store.cfg.c, store.cfg.device, proofs[i]))
      && (forall node | node in acceptedAt :: acceptedAt[node] <= |proofs|)
      && (paired != 0 ==>
            && pairedBy < |proofs| && proofs[pairedBy].host.offer.node == paired
            && (paired in acceptedAt ==> acceptedAt[paired] <= pairedBy))
    }

    /** Nothing was accepted or completed. */
    twostate predicate SameTrace()
      reads this
    {
      proofs == old(proofs) && pairedBy == old(pairedBy) && acceptedAt == old(acceptedAt)
    }

    constructor (s: PersistentStore, x: Agreement)
      requires s.Valid() && s.cfg.device != 0
      ensures Valid() && store == s && agreement == x && Now() == NEW_HOST && proofs == [] && acceptedAt == map[]
    {
      hide Proven, SystemInv, StoreBytes.View, KeyFor, BuildOffer, PersistentStore.Valid;
      store, agreement := s, x;
      phase, openedAt, candidates, offer, key, offerFrame, paired := Closed, 0, [], NO_TERMS, ZERO16, [], 0;
      last := NOT_COMPLETED;
      pin, proofs, pairedBy, acceptedAt := Pin(ZERO32, ZERO32, true), [], 0, map[];
    }

    method Forget()
      modifies this`last
      ensures Now() == Forgotten(old(Now()))
    {
      last := NOT_COMPLETED;
    }

    method DropOffer()
      modifies this`key, this`offer, this`offerFrame, this`phase
      ensures Now() == Dropped(old(Now()))
    {
      key, offer, offerFrame := ZERO16, NO_TERMS, [];
      if phase.Offered? {
        phase := if paired != 0 then Paired else Open;
      }
    }

    method Close()
      requires Valid()
      modifies this
      ensures Valid() && Now() == Shut(old(Now())) && SameTrace()
    {
      hide Proven, SystemInv, StoreBytes.View, KeyFor, BuildOffer;
      DropOffer();
      phase, candidates := Closed, [];
    }

    method OpenWindow(now: u32)
      requires Valid()
      modifies this
      ensures Valid() && Now() == Opened(old(Now()), now) && SameTrace()
    {
      hide Proven, SystemInv, StoreBytes.View, KeyFor, BuildOffer;
      Close();
      Forget();
      phase, openedAt, paired := Open, now, 0;
    }

    method Poll(now: u32)
      requires Valid()
      modifies this
      ensures Valid() && Now() == Polled(old(Now()), now) && pin == old(pin) && SameTrace()
    {
      hide Proven, SystemInv, StoreBytes.View, KeyFor, BuildOffer;
      if !phase.Closed? && Elapsed(now, openedAt) >= PAIRING_WINDOW_MS {
        DropOffer();
        phase, candidates := Closed, [];
      }
    }

    method Track(a: Asked, rssi: i16, now: u32) returns (consistent: bool)
      modifies this`candidates
      ensures (Now(), consistent) == Tracked(old(Now()), a, rssi, now)
    {
      for i := 0 to |candidates|
        invariant candidates == old(candidates) && Listed(candidates, a.node, i) == None
      {
        if candidates[i].node == a.node {
          ListedFirst(candidates, a.node, i, |candidates|);
          var listed := candidates[i];
          if listed.joined && (listed.nonce != a.nonce || listed.public != a.public) {
            listed := Candidate(a.node, a.nonce, a.public, 0, 0, false, false);
          }
          if listed.nonce != a.nonce || listed.public != a.public {
            listed := listed.(conflict := true);
          }
          listed := listed.(rssi := rssi, seenAt := now);
          candidates := candidates[i := listed];
          return !listed.conflict;
        }
      }
      if |candidates| == MAX_CANDIDATES {
        return false;
      }
      candidates := candidates + [Candidate(a.node, a.nonce, a.public, rssi, now, false, false)];
      return true;
    }

    /** A request: listed, and answered with the offer when it is for its node and consistent with it. */
    method HandleRequest(f: Frame, rssi: i16, now: u32) returns (reply: Option<Frame>)
      requires Valid()
      modifies this
      ensures Valid() && pin == old(pin) && SameTrace()
      ensures
        var r := Asking(store.cfg.c, store.cfg.device, old(Now()), f, rssi, now);
        Now() == r.host && !r.Confirmed? && reply == if r.Reply? then Some(r.frame) else None
    {
      hide HostInv, Proven, SystemInv, StoreBytes.View, ParseRequest, Tracked;
      AskingKeeps(Now(), agreement, store.cfg.c, store.cfg.device, pin, f, rssi, now);
      var a := ParseRequest(f);
      if a.None? || a.value.node == store.cfg.device {
        return None;
      }
      var consistent := Track(a.value, rssi, now);
      if !phase.Offered? || a.value.node != offer.node {
        return None;
      }
      if !consistent {
        DropOffer();
        return None;
      }
      return Some(offerFrame);
    }

    /** The node proved it holds the key: the binding is stored, already active. */
    method StoreBinding() returns (ok: bool, ghost ss: seq<State>, ghost es: seq<Event>)
      requires Valid() && phase.Offered?
      requires Allowed(store.cfg, store.Memory(), store.Durable(), store.history, OpPrepare(CredentialOf(offer, key)))
      modifies store, store.records
      ensures store.Valid()
      ensures Stretch(store.cfg, ss, es, offer.node, offer.generation)
      ensures |ss| == |es| + 1 && ss[0] == old(store.Now()) && ss[|es|] == store.Now()
      ensures forall i | 0 <= i < |es| :: !es[i].Remount? && !es[i].op.OpActivate?
      ensures ok ==> InService(store.Memory(), CredentialOf(offer, key))
      ensures store.records.faults == old(store.records.faults) ==>
        CanStore(store.cfg, old(store.Now()), CredentialOf(offer, key)) ==> ok
    {
      hide HostInv, SystemInv, StoreBytes.View, Stretch, Followed, Faultless, Allowed, Enrolled, InService, Joinable;
      ghost var first := store.Now();
      var x := CredentialOf(offer, key);
      var result;
      result, ss, es := PrepareFresh(store, x);
      if result == Ok {
        ghost var before := store.Now();
        result := store.ActivateAlongside(offer.node, offer.generation);
        AlongsideOk(store.cfg, before, x, store.Now(), result);
        if store.records.faults == old(store.records.faults) && store.cfg.role.Receiver?
           && Joinable(store.cfg, first, x) {
          AlongsideServes(store.cfg, before, x, store.Now(), result);
        }
        ghost var e := OneMore(store.cfg, ss, es, OpAlongside(offer.node, offer.generation), store.Now(), result,
                               offer.node, offer.generation);
        ss, es := ss + [store.Now()], es + [e];
        StretchShape(store.cfg, ss, es, offer.node, offer.generation);
      }
      ok := result == Ok;
      if !ok {
        var undone := store.RevokeGeneration(offer.node, offer.generation);
        ghost var e := OneMore(store.cfg, ss, es, OpRevoke(offer.node, offer.generation), store.Now(), undone,
                               offer.node, offer.generation);
        ss, es := ss + [store.Now()], es + [e];
        StretchShape(store.cfg, ss, es, offer.node, offer.generation);
      }
    }

    method MarkJoined(node: u64)
      modifies this`candidates
      ensures Now() == old(Now()).(candidates := AllJoined(old(candidates), node))
    {
      for i := 0 to |candidates|
        invariant |candidates| == |old(candidates)|
        invariant forall j | 0 <= j < i :: candidates[j] == AllJoined(old(candidates), node)[j]
        invariant forall j | i <= j < |candidates| :: candidates[j] == old(candidates)[j]
      {
        if candidates[i].node == node {
          candidates := candidates[i := candidates[i].(joined := true)];
        }
      }
      assert candidates == AllJoined(old(candidates), node);
    }

    /** `handle`: what a received frame does to the window, the offer and the store. */
    method Handle(f: Frame, rssi: i16, now: u32)
      returns (reply: Option<Frame>, ghost ss: seq<State>, ghost es: seq<Event>)
      requires Valid()
      requires
        var r := React(store.cfg.c, store.cfg.device, Now(), f, rssi, now);
        r.Confirmed? ==>
          Allowed(store.cfg, store.Memory(), store.Durable(), store.history,
                  OpPrepare(CredentialOf(r.host.offer, r.host.key)))
      modifies this, store, store.records
      ensures Valid()
      ensures
        var r := React(store.cfg.c, store.cfg.device, old(Now()), f, rssi, now);
        && Stretch(store.cfg, ss, es, r.host.offer.node, r.host.offer.generation)
        && |ss| == |es| + 1 && ss[0] == old(store.Now()) && ss[|es|] == store.Now()
        && (forall i | 0 <= i < |es| :: !es[i].Remount? && !es[i].op.OpActivate?)
        && (r.Silent? ==> es == [] && Now() == r.host && reply == None)
        && (r.Reply? ==> es == [] && Now() == r.host && reply == Some(r.frame))
        && (r.Confirmed? ==>
              if reply.Some? then
                && Now() == Completes(store.cfg.c, r.host, now) && reply == Some(last.done)
                && InService(store.Memory(), CredentialOf(r.host.offer, r.host.key))
                && proofs == old(proofs) + [Proof(old(Now()), old(pin), f, rssi, now, store.Memory())]
              else Now() == r.host && proofs == old(proofs))
        && (!r.Confirmed? ==> proofs == old(proofs))
      ensures acceptedAt == old(acceptedAt)
      ensures store.records.faults == old(store.records.faults) ==>
        var r := React(store.cfg.c, store.cfg.device, old(Now()), f, rssi, now);
        r.Confirmed? && CanStore(store.cfg, old(store.Now()), CredentialOf(r.host.offer, r.host.key)) ==> reply.Some?
    {
      hide HostInv, SystemInv, StoreBytes.View, Stretch, Allowed, InService, VerifyTagged, UntrustedType, Asking,
        Completes, Joinable;
      ghost var h := Now();
      ghost var r := React(store.cfg.c, store.cfg.device, h, f, rssi, now);
      ReactKeeps(h, agreement, store.cfg.c, store.cfg.device, pin, f, rssi, now);
      Nothing(store.cfg, store.Now(), r.host.offer.node, r.host.offer.generation);
      ss, es := [store.Now()], [];
      Poll(now);
      var kind := UntrustedType(f);
      if last.node != 0 && (Elapsed(now, last.at) >= DONE_REPLAY_MS || last.replies >= MAX_DONE_REPLIES) {
        Forget();
      }
      if kind == 5 && last.node != 0
         && VerifyTagged(store.cfg.c, f, Confirm, last.network, last.node, last.nonce, last.key) {
        last := last.(replies := last.replies + 1);
        return Some(last.done), ss, es;
      }
      if phase.Closed? {
        return None, ss, es;
      }
      if kind == 3 {
        ExpiredKeeps(h, agreement, store.cfg.c, store.cfg.device, pin, now);
        reply := HandleRequest(f, rssi, now);
        return;
      }
      if kind != 5 || !phase.Offered?
         || !VerifyTagged(store.cfg.c, f, Confirm, offer.network, offer.node, offer.nonce, key) {
        return None, ss, es;
      }
      ExpiredKeeps(h, agreement, store.cfg.c, store.cfg.device, pin, now);
      reply, ss, es := HandleConfirm(h, f, rssi, now);
    }

    /** A valid confirmation of the offer, by the frame the host just handled. */
    method HandleConfirm(ghost h: Host, ghost f: Frame, ghost rssi: i16, now: u32)
      returns (reply: Option<Frame>, ghost ss: seq<State>, ghost es: seq<Event>)
      requires Valid() && phase.Offered?
      requires HostInv(h, agreement, store.cfg.c, store.cfg.device, pin) && h.offer == offer && h.key == key
      requires React(store.cfg.c, store.cfg.device, h, f, rssi, now).Confirmed?
      requires Allowed(store.cfg, store.Memory(), store.Durable(), store.history, OpPrepare(CredentialOf(offer, key)))
      modifies this, store, store.records
      ensures Valid() && acceptedAt == old(acceptedAt)
      ensures proofs == old(proofs) + (if reply.Some? then [Proof(h, old(pin), f, rssi, now, store.Memory())] else [])
      ensures Stretch(store.cfg, ss, es, old(offer).node, old(offer).generation)
      ensures |ss| == |es| + 1 && ss[0] == old(store.Now()) && ss[|es|] == store.Now()
      ensures forall i | 0 <= i < |es| :: !es[i].Remount? && !es[i].op.OpActivate?
      ensures reply.Some? ==>
        && Now() == Completes(store.cfg.c, old(Now()), now) && reply == Some(last.done)
        && InService(store.Memory(), CredentialOf(old(offer), old(key)))
      ensures reply.None? ==> Now() == old(Now())
      ensures store.records.faults == old(store.records.faults) ==>
        CanStore(store.cfg, old(store.Now()), CredentialOf(old(offer), old(key))) ==> reply.Some?
    {
      hide HostInv, SystemInv, StoreBytes.View, Stretch, Allowed, InService, TaggedFrame, React, Completes, Joinable;
      var ok;
      ok, ss, es := StoreBinding();
      if !ok {
        return None, ss, es;
      }
      Complete(Proof(h, pin, f, rssi, now, store.Memory()), now);
      return Some(last.done), ss, es;
    }

    /** The binding is stored: the candidate has joined, and the completion may be repeated. */
    method Complete(ghost proof: Proof, now: u32)
      requires Valid() && Proven(agreement, store.cfg.c, store.cfg.device, proof) && proof.host.offer == offer
      modifies this`candidates, this`last, this`paired, this`pairedBy, this`proofs, this`key, this`offer,
        this`offerFrame, this`phase
      ensures Valid() && Now() == Completes(store.cfg.c, old(Now()), now)
      ensures proofs == old(proofs) + [proof] && acceptedAt == old(acceptedAt)
    {
      hide HostInv, SystemInv, StoreBytes.View, Proven, TaggedFrame, AllJoined, TermsFit, PersistentStore.Valid,
        React, KeyFor, BuildOffer, InService;
      ghost var before := Now();
      pairedBy := |proofs|;
      proofs := proofs + [proof];
      Join(now);
      CompletesKeeps(before, agreement, store.cfg.c, store.cfg.device, pin, now);
    }

    /** The offered node is the paired one, and its completion may be repeated. */
    method Join(now: u32)
      modifies this`candidates, this`last, this`paired, this`key, this`offer, this`offerFrame, this`phase
      ensures Now() == Completes(store.cfg.c, old(Now()), now)
    {
      hide TaggedFrame, AllJoined;
      MarkJoined(offer.node);
      last := Completed(offer.network, offer.node, offer.nonce, key,
                        TaggedFrame(store.cfg.c, PairingType.Done, offer.network, offer.node, offer.nonce, key), now,
                          1);
      paired := offer.node;
      DropOffer();
      phase := Paired;
    }

    /** `accept`: offers a binding to a listed node, under a key derived from the key it asked with. */
    method Accept(node: u64, now: u32, draw: Draw) returns (result: Result)
      requires Valid()
      modifies this
      ensures Valid()
      ensures (Now(), result) == AfterAccept(old(Now()), agreement, store.cfg.c, store.Memory(),
                                             FreeSlotsIn(store.Memory()), store.cfg.device, node, now, draw)
      ensures proofs == old(proofs)
      ensures acceptedAt == if result == Ok then old(acceptedAt)[node := |proofs|] else old(acceptedAt)
    {
      hide HostInv, SystemInv, StoreBytes.View, Offering, FreeSlotsIn, TermsOf, Proven, PersistentStore.Valid,
        Dropped, TermsFit;
      ghost var h := Now();
      ghost var free := FreeSlotsIn(store.Memory());
      AcceptPins(h, agreement, store.cfg.c, store.Memory(), free, store.cfg.device, node, now, draw, pin);
      PrivateDrawn(h, agreement, store.Memory(), store.cfg.device, draw);
      Poll(now);
      var candidate, refusal := Acceptable(node);
      if candidate.None? {
        return refusal;
      }
      OfferingKeepsList(Now(), agreement, store.cfg.c, candidate.value, draw);
      OfferingPairs(Now(), agreement, store.cfg.c, candidate.value, draw);
      result := Offer(candidate.value, draw);
      if result == Ok {
        acceptedAt := acceptedAt[node := |proofs|];
      }
    }

    /** The listed candidate an offer can be made to, or why there is none. */
    method Acceptable(node: u64) returns (candidate: Option<Candidate>, refusal: Result)
      ensures
        var i := Listed(candidates, node, |candidates|);
        var free := FreeSlotsIn(store.Memory());
        if phase.Closed? then candidate == None && refusal == Result.Invalid
        else if i.None? then candidate == None && refusal == NotFound
        else if candidates[i.value].conflict then candidate == None && refusal == Conflict
        else if free == 0 then candidate == None && refusal == if store.health == Ready then Full else StorageError
        else candidate == Some(candidates[i.value])
    {
      hide FreeSlotsIn;
      if phase.Closed? {
        return None, Result.Invalid;
      }
      var i := Listed(candidates, node, |candidates|);
      if i.None? {
        return None, NotFound;
      }
      if candidates[i.value].conflict {
        return None, Conflict;
      }
      var slots := store.FreeSlots();
      if slots == 0 {
        return None, if store.health == Ready then Full else StorageError;
      }
      return Some(candidates[i.value]), Ok;
    }

    /** The offer itself, to a candidate that may be accepted. */
    method Offer(candidate: Candidate, draw: Draw) returns (result: Result)
      modifies this`key, this`offer, this`offerFrame, this`phase, this`paired, this`pin
      ensures
        var o := TermsOf(old(Now()), agreement, store.Memory(), store.cfg.device, candidate, draw);
        (Now(), result) ==
          if o.None? || o.value.network == 0 || o.value.generation == 0 then (old(Now()), CryptoError)
          else Offering(old(Now()), agreement, store.cfg.c, o.value, candidate, draw)
      ensures pin == if result == Ok && draw.private.Some?
                     then Pin(candidate.public, draw.private.value, candidate.joined) else old(pin)
    {
      hide StoreBytes.View, KeyFor, BuildOffer;
      PrivateDrawn(Now(), agreement, store.Memory(), store.cfg.device, draw);
      var terms := TermsWith(candidate, draw);
      if terms.None? || terms.value.network == 0 || terms.value.generation == 0 {
        return CryptoError;
      }
      var derived := KeyFor(agreement, draw.private.value, terms.value, candidate.public);
      if derived.None? {
        return CryptoError;
      }
      var frame := BuildOffer(store.cfg.c, terms.value, derived.value);
      if frame.None? {
        return CryptoError;
      }
      DropOffer();
      if paired == candidate.node {
        paired := 0;
      }
      offer, key, offerFrame, phase := terms.value, derived.value, frame.value, Offered;
      pin := Pin(candidate.public, draw.private.value, candidate.joined);
      return Ok;
    }

    method TermsWith(candidate: Candidate, draw: Draw) returns (terms: Option<Terms>)
      ensures terms == TermsOf(Now(), agreement, store.Memory(), store.cfg.device, candidate, draw)
    {
      if draw.private.None? {
        return None;
      }
      var public := agreement.public(draw.private.value);
      if public.None? {
        return None;
      }
      var network := if store.registry.network != 0 then store.registry.network else draw.network;
      return Some(Terms(network, store.cfg.device, candidate.node, candidate.nonce, draw.generation, PAIRING_PROFILE,
                        public.value));
    }
  }
}
