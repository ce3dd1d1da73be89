// What the two sides of radio pairing do, case by case: which frame is answered and with what, when the
// radio is handed a frame, and how long each side waits.
module PairingLaws {
  import opened Wire
  import opened Protocol
  import opened Codec
  import opened Records
  import opened Store
  import opened StoreInvariant
  import opened StoreOps
  import opened StoreRuns
  import opened StoreObject
  import opened StoreLaws
  import opened Pairing
  import opened PairingStore
  import opened HostPairing
  import opened ClientPairing
  import opened Clocks

  // ------------------------------------------------------------------ the window

  /** The window is open, by the host's clock. */
  predicate InWindow(h: Host, now: u32) { !h.phase.Closed? && Elapsed(now, h.openedAt) < 120000 }

  /** The window stays open for exactly two minutes of true time, across a wrap of the clock. */
  lemma WindowLaw(h: Host, since: nat, time: nat)
    requires !h.phase.Closed? && h.openedAt == Reading32(since) && since <= time < since + 0x1_0000_0000
    ensures InWindow(h, Reading32(time)) <==> time < since + 120000
    ensures time < since + 120000 ==> Polled(h, Reading32(time)) == h
    ensures time >= since + 120000 ==>
      var g := Polled(h, Reading32(time));
      g.phase.Closed? && g.candidates == [] && g.offerFrame == [] && g.key == ZERO16 && g.last == h.last
  {
    ElapsedTrue(since, time);
  }

  // ------------------------------------------------------------------ candidates

  /** The node is listed at the index. */
  predicate ListedAt(cs: seq<Candidate>, node: u64, i: nat) { i < |cs| && cs[i].node == node }

  /** A joined candidate that asks with another attempt or key starts afresh; any other that does is in conflict. */
  function AfterAsking(c: Candidate, a: Asked, rssi: i16, now: u32): Candidate
  {
    if c.nonce == a.nonce && c.public == a.public then c.(rssi := rssi, seenAt := now)
    else if c.joined then Candidate(a.node, a.nonce, a.public, rssi, now, false, false)
    else c.(conflict := true, rssi := rssi, seenAt := now)
  }

  /**
   * The list after a request: the node's candidate is updated, or the node added while there is room; a key
   * once listed for a node that has not joined is never replaced. The request counts only when the
   * candidate is then without conflict.
   */
  lemma TrackLaw(h: Host, a: Asked, rssi: i16, now: u32)
    requires Distinct(h.candidates)
    ensures
      var (t, consistent) := Tracked(h, a, rssi, now);
      && t == h.(candidates := t.candidates)
      && (forall i: nat | ListedAt(h.candidates, a.node, i) ::
            && t.candidates == h.candidates[i := AfterAsking(h.candidates[i], a, rssi, now)]
            && consistent == !AfterAsking(h.candidates[i], a, rssi, now).conflict)
      && ((forall i: nat :: !ListedAt(h.candidates, a.node, i)) ==>
            if |h.candidates| < 4 then
              && consistent
              && t.candidates == h.candidates + [Candidate(a.node, a.nonce, a.public, rssi, now, false, false)]
            else !consistent && t == h)
  {
    var found := Listed(h.candidates, a.node, |h.candidates|);
    assert found.Some? ==> ListedAt(h.candidates, a.node, found.value);
    forall i: nat | ListedAt(h.candidates, a.node, i) ensures found == Some(i) {
      ListedUnique(h.candidates, a.node, i, |h.candidates|);
    }
  }

  // ------------------------------------------------------------------ what the host answers

  /** The host but for the exchange it completed last. */
  predicate SameButLast(h: Host, g: Host) { g == h.(last := g.last) }

  /** A confirmation of the exchange completed last, in time and not too often. */
  predicate Repeats(c: Crypto, h: Host, f: Frame, now: u32)
  {
    && h.last.node != 0 && Elapsed(now, h.last.at) < 15000 && h.last.replies < 5
    && f == TaggedFrame(c, Confirm, h.last.network, h.last.node, h.last.nonce, h.last.key)
  }

  lemma TaggedType(c: Crypto, t: PairingType, network: u64, node: u64, nonce: u64, key: Key)
    ensures UntrustedType(TaggedFrame(c, t, network, node, nonce, key)) == TypeByte(t)
  {
    HeaderReadsBack(t, network, node, nonce, 0, TagFor(c, key, t, nonce, PairingHeader(t, network, node, nonce, 0)));
  }

  /** A repeated confirmation is answered with the identical completion, even after the window closed. */
  lemma RepeatLaw(c: Crypto, device: u64, h: Host, f: Frame, rssi: i16, now: u32)
    requires Repeats(c, h, f, now)
    ensures
      var r := React(c, device, h, f, rssi, now);
      && r.Reply? && r.frame == h.last.done
      && r.host.last == h.last.(replies := h.last.replies + 1)
      && (InWindow(h, now) ==> SameButLast(h, r.host)) && (!InWindow(h, now) ==> r.host.phase.Closed?)
  {
    hide TaggedFrame, VerifyTagged;
    TaggedIff(c, f, Confirm, h.last.network, h.last.node, h.last.nonce, h.last.key);
    TaggedType(c, Confirm, h.last.network, h.last.node, h.last.nonce, h.last.key);
  }

  /** What is not such a repetition finds the window open, or no answer. */
  lemma OutsideLaw(c: Crypto, device: u64, h: Host, f: Frame, rssi: i16, now: u32)
    requires !Repeats(c, h, f, now) && !InWindow(h, now)
    ensures React(c, device, h, f, rssi, now).Silent? && React(c, device, h, f, rssi, now).host.phase.Closed?
  {
    hide TaggedFrame, VerifyTagged;
    TaggedIff(c, f, Confirm, h.last.network, h.last.node, h.last.nonce, h.last.key);
  }

  /** The request is for the node under offer. */
  predicate ForOffer(h: Host, a: Asked) { h.phase.Offered? && a.node == h.offer.node }

  /** How a request is answered. */
  lemma RequestLaw(x: Agreement, c: Crypto, device: u64, h: Host, pin: Pin, f: Frame, rssi: i16, now: u32)
    requires HostInv(h, x, c, device, pin) && InWindow(h, now) && UntrustedType(f) == 3
    ensures
      var r := React(c, device, h, f, rssi, now);
      match ParseRequest(f)
      case None => r.Silent? && SameButLast(h, r.host)
      case Some(a) =>
        var (t, consistent) := Tracked(h, a, rssi, now);
        if a.node == device then r.Silent? && SameButLast(h, r.host)
        else if !ForOffer(h, a) then r.Silent? && SameButLast(t, r.host)
        else if consistent then r.Reply? && r.frame == h.offerFrame && SameButLast(t, r.host)
        else
          && r.Silent? && r.host.phase == (if h.paired != 0 then Paired else Open) && r.host.offerFrame == []
          && r.host.key == ZERO16 && r.host.candidates == t.candidates
  {
    hide VerifyTagged, ParseRequest, Listed, Seen, BuildOffer, KeyFor;
  }

  /**
   * While an offer is open, a request for its node with the attempt and the key the operator accepted is
   * answered with exactly the offer of the stored terms, and the offer stays open.
   */
  lemma OfferAnswered(x: Agreement, c: Crypto, device: u64, h: Host, pin: Pin, f: Frame, rssi: i16, now: u32, i: nat)
    requires HostInv(h, x, c, device, pin) && InWindow(h, now) && h.phase.Offered? && h.offer.node != device
    requires ListedAt(h.candidates, h.offer.node, i) && !h.candidates[i].conflict
    requires BuildRequest(h.offer.node, h.candidates[i].nonce, h.candidates[i].public) == Some(f)
    ensures
      var r := React(c, device, h, f, rssi, now);
      && r.Reply? && ParseOffer(r.frame) == Some(h.offer) && VerifyOffer(c, r.frame, h.key)
      && BuildOffer(c, h.offer, h.key) == Some(r.frame)
      && SameButLast(h.(candidates := h.candidates[i := h.candidates[i].(rssi := rssi, seenAt := now)]), r.host)
  {
    hide BuildRequest, ParseRequest, ParseOffer, VerifyOffer, BuildOffer, KeyFor, Tracked, React, UntrustedType;
    var a := Asked(h.offer.node, h.candidates[i].nonce, h.candidates[i].public);
    RequestRoundTrip(a.node, a.nonce, a.public);
    RequestType(a.node, a.nonce, a.public);
    OfferRoundTrip(c, h.offer, h.key);
    RequestLaw(x, c, device, h, pin, f, rssi, now);
    TrackLaw(h, a, rssi, now);
  }

  lemma RequestType(node: u64, nonce: u64, public: XKey)
    ensures BuildRequest(node, nonce, public).Some? ==>
      UntrustedType(BuildRequest(node, nonce, public).value) == 3
  {
    HeaderReadsBack(Request, 0, node, nonce, 32, public);
  }

  /** The confirmation of the open offer is accepted, and no other frame but a request or a repetition has an effect. */
  lemma ConfirmLaw(c: Crypto, device: u64, h: Host, f: Frame, rssi: i16, now: u32)
    requires InWindow(h, now) && UntrustedType(f) != 3 && !Repeats(c, h, f, now)
    ensures
      var r := React(c, device, h, f, rssi, now);
      && SameButLast(h, r.host)
      && (if h.phase.Offered? && f == TaggedFrame(c, Confirm, h.offer.network, h.offer.node, h.offer.nonce, h.key)
          then r.Confirmed? else r.Silent?)
  {
    TaggedType(c, Confirm, h.offer.network, h.offer.node, h.offer.nonce, h.key);
    hide TaggedFrame, VerifyTagged, UntrustedType;
    TaggedIff(c, f, Confirm, h.last.network, h.last.node, h.last.nonce, h.last.key);
    TaggedIff(c, f, Confirm, h.offer.network, h.offer.node, h.offer.nonce, h.key);
  }

  /** Once the binding is stored the node counts as joined and paired, and its completion may be repeated. */
  lemma CompletesLaw(c: Crypto, h: Host, now: u32)
    requires h.phase.Offered?
    ensures
      var g := Completes(c, h, now);
      && g.phase.Paired? && g.paired == h.offer.node && g.offerFrame == [] && g.key == ZERO16
      && g.openedAt == h.openedAt
      && g.last == Completed(h.offer.network, h.offer.node, h.offer.nonce, h.key, g.last.done, now, 1)
      && VerifyTagged(c, g.last.done, PairingType.Done, h.offer.network, h.offer.node, h.offer.nonce, h.key)
      && |g.candidates| == |h.candidates|
      && forall i | 0 <= i < |h.candidates| ::
           g.candidates[i] == if h.candidates[i].node == h.offer.node then h.candidates[i].(joined := true)
                              else h.candidates[i]
  {
    hide TaggedFrame, VerifyTagged;
    TaggedIff(c, Completes(c, h, now).last.done, PairingType.Done, h.offer.network, h.offer.node, h.offer.nonce, h.key);
  }

  // ------------------------------------------------------------------ the operator's click

  /** The source of entropy yields a key pair and, where they are needed, numbers that are not zero. */
  predicate Draws(x: Agreement, m: Mem, draw: Draw)
  {
    && draw.private.Some? && x.public(draw.private.value).Some? && draw.generation != 0
    && (m.registry.network != 0 || draw.network != 0)
  }

  /** The terms and the key of an offer to the candidate. */
  ghost predicate OffersTo(x: Agreement, c: Crypto, m: Mem, device: u64, cand: Candidate, draw: Draw, t: Host)
    requires Draws(x, m, draw)
  {
    && t.phase.Offered?
    && t.offer == Terms(if m.registry.network != 0 then m.registry.network else draw.network, device, cand.node,
                        cand.nonce, draw.generation, 1, x.public(draw.private.value).value)
    && DeriveBindingKey(x, draw.private.value, cand.public, t.offer.network, device, cand.node, draw.generation,
                        cand.public, t.offer.receiverPublic) == Some(t.key)
    && ParseOffer(t.offerFrame) == Some(t.offer) && VerifyOffer(c, t.offerFrame, t.key)
  }

  /** The two secrets agree and the terms are ones an offer can carry. */
  ghost predicate SecretsAgree(x: Agreement, device: u64, cand: Candidate, draw: Draw)
  {
    && device != 0 && cand.node != 0 && cand.nonce != 0 && draw.private.Some?
    && x.public(draw.private.value).Some? && Nonzero(x.public(draw.private.value).value)
    && x.shared(draw.private.value, cand.public).Some?
  }

  /** Which result a click gives, in every case, and the offer it opens. */
  lemma AcceptLaw(h: Host, x: Agreement, c: Crypto, m: Mem, free: nat, device: u64, node: u64, now: u32, draw: Draw)
    requires Distinct(h.candidates)
    ensures
      var (t, result) := AfterAccept(h, x, c, m, free, device, node, now, draw);
      && (!InWindow(h, now) ==> result == Result.Invalid && t.phase.Closed?)
      && (InWindow(h, now) && (forall i: nat :: !ListedAt(h.candidates, node, i)) ==> result == NotFound && t == h)
      && (InWindow(h, now) ==> forall i: nat | ListedAt(h.candidates, node, i) ::
            var cand := h.candidates[i];
            if cand.conflict then result == Conflict && t == h
            else if free == 0 then result == (if m.health == Ready then Full else StorageError) && t == h
            else if !Draws(x, m, draw) || !SecretsAgree(x, device, cand, draw) then result == CryptoError && t == h
            else
              && result == Ok && OffersTo(x, c, m, device, cand, draw, t)
              && t.candidates == h.candidates && t.openedAt == h.openedAt && t.last == h.last
              && t.paired == if h.paired == node then 0 else h.paired)
  {
    var found := Listed(h.candidates, node, |h.candidates|);
    assert found.Some? ==> ListedAt(h.candidates, node, found.value);
    forall i: nat | ListedAt(h.candidates, node, i) ensures found == Some(i) {
      ListedUnique(h.candidates, node, i, |h.candidates|);
    }
    if InWindow(h, now) && found.Some? && !h.candidates[found.value].conflict && free != 0 && Draws(x, m, draw) {
      OfferingLaw(h, x, c, m, device, h.candidates[found.value], draw);
    }
    hide Offering, OffersTo, SecretsAgree;
  }

  lemma OfferingLaw(h: Host, x: Agreement, c: Crypto, m: Mem, device: u64, cand: Candidate, draw: Draw)
    requires Draws(x, m, draw)
    ensures
      var o := TermsOf(h, x, m, device, cand, draw);
      && o.Some? && o.value.network != 0 && o.value.generation != 0
      && (var (t, result) := Offering(h, x, c, o.value, cand, draw);
          if !SecretsAgree(x, device, cand, draw) then result == CryptoError && t == h
          else
            && result == Ok && OffersTo(x, c, m, device, cand, draw, t)
            && t.candidates == h.candidates && t.openedAt == h.openedAt && t.last == h.last
            && t.paired == if h.paired == cand.node then 0 else h.paired)
  {
    var o := TermsOf(h, x, m, device, cand, draw).value;
    var key := KeyFor(x, draw.private.value, o, cand.public);
    if key.Some? && TermsFit(o) {
      OfferRoundTrip(c, o, key.value);
    }
    hide ParseOffer, VerifyOffer, Context;
  }

  // ------------------------------------------------------------------ the node

  /** The attempt is over and its secrets are gone. */
  predicate GivesUp(k: Client, t: Client)
  {
    t == k.(private := ZERO32, public := ZERO32, key := ZERO16, phase := Failure)
  }

  /** A channel check for the outgoing frame was started, or the radio failed. */
  predicate ChecksFor(k: Client, t: Client, next: ClientPhase, startsCheck: bool, now: u32)
  {
    if startsCheck then t == k.(phase := Checking, afterSend := next, phaseAt := now)
    else GivesUp(k.(afterSend := next, phaseAt := now), t)
  }

  /** An attempt runs for two minutes of true time, across a wrap of the clock, and is then given up. */
  lemma AttemptEnds(x: Agreement, c: Crypto, k: Client, m: Mem, device: u64, r: Radio, since: nat, time: nat)
    requires Running(k) && k.startedAt == Reading32(since) && since <= time < since + 0x1_0000_0000
    ensures Elapsed(Reading32(time), k.startedAt) < 120000 <==> time < since + 120000
    ensures time >= since + 120000 ==>
      var d := Decide(x, c, k, m, device, r, Reading32(time));
      d.Stay? && GivesUp(k, d.client)
  {
    ElapsedTrue(since, time);
  }

  /** A client that is not in an attempt does nothing. */
  lemma NothingToPoll(x: Agreement, c: Crypto, k: Client, m: Mem, device: u64, r: Radio, now: u32)
    requires !Running(k)
    ensures Decide(x, c, k, m, device, r, now) == Stay(k)
  {
  }

  /**
   * A clear channel starts the transmission of the outgoing frame; a busy one leads to a wait of the drawn
   * jitter; no answer for 3 s, or an error, ends the attempt.
   */
  lemma ChannelLaw(x: Agreement, c: Crypto, k: Client, m: Mem, device: u64, r: Radio, now: u32)
    requires k.phase.Checking? && Elapsed(now, k.startedAt) < 120000
    ensures
      var d := Decide(x, c, k, m, device, r, now);
      d.Stay? &&
      match r.channel
      case Clear =>
        if r.startsTransmit then d.client == k.(phase := Sending, phaseAt := now)
        else GivesUp(k.(phaseAt := now), d.client)
      case Busy =>
        d.client == k.(phase := Waiting, phaseAt := now, waitMs := if r.jitter.Some? then r.jitter.value else 800)
      case Pending => if Elapsed(now, k.phaseAt) < 3000 then d.client == k else GivesUp(k, d.client)
      case ChannelError => GivesUp(k, d.client)
  {
  }

  /** A transmission that completed leads to listening for what its frame asks for. */
  lemma SendingLaw(x: Agreement, c: Crypto, k: Client, m: Mem, device: u64, r: Radio, now: u32)
    requires k.phase.Sending? && Elapsed(now, k.startedAt) < 120000
    ensures
      var d := Decide(x, c, k, m, device, r, now);
      d.Stay? &&
      match r.sent
      case Complete => d.client == k.(phase := k.afterSend, phaseAt := now)
      case InFlight => if Elapsed(now, k.phaseAt) < 3000 then d.client == k else GivesUp(k, d.client)
      case SendError => GivesUp(k, d.client)
  {
  }

  /** After the wait the channel is checked again, for the same frame. */
  lemma WaitingLaw(x: Agreement, c: Crypto, k: Client, m: Mem, device: u64, r: Radio, now: u32)
    requires k.phase.Waiting? && Elapsed(now, k.startedAt) < 120000
    ensures
      var d := Decide(x, c, k, m, device, r, now);
      d.Stay? &&
      if Elapsed(now, k.phaseAt) < k.waitMs then d.client == k
      else ChecksFor(k, d.client, k.afterSend, r.startsCheck, now)
  {
  }

  /** The offer of a receiver to this attempt, under the key both derive. */
  predicate OfferTo(x: Agreement, c: Crypto, k: Client, device: u64, f: Frame, o: Terms, key: Key)
  {
    && BuildOffer(c, o, key) == Some(f) && o.node == device && o.nonce == k.nonce && o.receiver != device
    && o.profile == 1
    && DeriveBindingKey(x, k.private, o.receiverPublic, o.network, o.receiver, device, o.generation, k.public,
                        o.receiverPublic) == Some(key)
  }

  lemma OfferToIff(x: Agreement, c: Crypto, k: Client, device: u64, f: Frame)
    ensures ForUs(x, c, k, device, f) <==> exists o, key :: OfferTo(x, c, k, device, f, o, key)
    ensures forall o, key | OfferTo(x, c, k, device, f, o, key) ::
      ParseOffer(f) == Some(o) && ClientKey(x, k, device, o) == Some(key) && UntrustedType(f) == 4
  {
    hide DeriveBindingKey, VerifyOffer, ParseOffer, BuildOffer, UntrustedType;
    forall o, key | OfferTo(x, c, k, device, f, o, key)
      ensures ParseOffer(f) == Some(o) && VerifyOffer(c, f, key) && UntrustedType(f) == 4
    {
      OfferFits(c, o, key, f);
      OfferRoundTrip(c, o, key);
      OfferType(c, o, key);
    }
    if ForUs(x, c, k, device, f) {
      var o := ParseOffer(f).value;
      var key := ClientKey(x, k, device, o).value;
      OfferCanonical(c, f, key);
      assert OfferTo(x, c, k, device, f, o, key);
    }
  }

  lemma OfferType(c: Crypto, o: Terms, key: Key)
    requires TermsFit(o)
    ensures BuildOffer(c, o, key).Some? && UntrustedType(BuildOffer(c, o, key).value) == 4
  {
    var tag := TagFor(c, key, Offer, o.nonce, OfferBody(o));
    var payload := o.receiverPublic + Be(o.receiver, 8) + Be(o.generation, 8) + Be(o.profile, 2);
    Assoc(PairingHeader(Offer, o.network, o.node, o.nonce, 50), payload, tag);
    HeaderReadsBack(Offer, o.network, o.node, o.nonce, 50, payload + tag);
  }

  /**
   * The offer to the running attempt is confirmed under its key, unless the node belongs to another network or
   * receiver, which ends the attempt before anything is confirmed.
   */
  lemma OfferLaw(x: Agreement, c: Crypto, k: Client, m: Mem, device: u64, r: Radio, now: u32, o: Terms, key: Key)
    requires ClientInv(k, x, c, device) && k.phase.Listening? && Elapsed(now, k.startedAt) < 120000
    requires r.heard.Frame? && OfferTo(x, c, k, device, r.heard.f, o, key)
    ensures
      var d := Decide(x, c, k, m, device, r, now);
      d.Stay? &&
      if m.registry.network == 0 || (m.registry.network == o.network && m.registry.receiver == o.receiver) then
        var confirm := TaggedFrame(c, Confirm, o.network, device, k.nonce, key);
        ChecksFor(k.(terms := o, key := key, outgoing := confirm, confirms := 1), d.client, AwaitingDone, r.startsCheck,
                  now)
      else GivesUp(k, d.client)
  {
    OfferToIff(x, c, k, device, r.heard.f);
    OfferFits(c, o, key, r.heard.f);
    assert OfferTo(x, c, k, device, r.heard.f, o, key);
    hide DeriveBindingKey, VerifyOffer, ParseOffer, BuildOffer, TaggedFrame, UntrustedType, ForUs, OfferTo;
  }

  /** The completion of the confirmed offer goes on to the store. */
  lemma DoneLaw(x: Agreement, c: Crypto, k: Client, m: Mem, device: u64, r: Radio, now: u32)
    requires k.phase.AwaitingDone? && Elapsed(now, k.startedAt) < 120000
    requires r.heard == Heard.Frame(TaggedFrame(c, PairingType.Done, k.terms.network, device, k.nonce, k.key))
    ensures Decide(x, c, k, m, device, r, now) == Store(k)
  {
    TaggedType(c, PairingType.Done, k.terms.network, device, k.nonce, k.key);
    TaggedIff(c, r.heard.f, PairingType.Done, k.terms.network, device, k.nonce, k.key);
    hide VerifyTagged, TaggedFrame, UntrustedType, OfferHeard;
  }

  /** Neither the offer nor the completion it waits for was heard. */
  ghost predicate HearsNothing(x: Agreement, c: Crypto, k: Client, device: u64, r: Radio)
  {
    || r.heard.Nothing?
    || (r.heard.Frame? && k.phase.Listening? && UntrustedType(r.heard.f) != 4)
    || (r.heard.Frame? && k.phase.AwaitingDone?
        && r.heard.f != TaggedFrame(c, PairingType.Done, k.terms.network, device, k.nonce, k.key))
  }

  /**
   * While nothing is heard the node listens for 1.5 s; then it asks again after the drawn jitter, or repeats its
   * confirmation, which it sends five times at most.
   */
  lemma QuietLaw(x: Agreement, c: Crypto, k: Client, m: Mem, device: u64, r: Radio, now: u32)
    requires (k.phase.Listening? || k.phase.AwaitingDone?) && Elapsed(now, k.startedAt) < 120000
    requires HearsNothing(x, c, k, device, r)
    ensures
      var d := Decide(x, c, k, m, device, r, now);
      d.Stay? &&
      if Elapsed(now, k.phaseAt) < 1500 then d.client == k
      else if k.phase.Listening? then
        d.client == k.(afterSend := Listening, phase := Waiting, phaseAt := now,
                       waitMs := if r.jitter.Some? then r.jitter.value else 800)
      else if k.confirms >= 5 then GivesUp(k, d.client)
      else ChecksFor(k.(confirms := k.confirms + 1), d.client, AwaitingDone, r.startsCheck, now)
  {
    if r.heard.Frame? {
      TaggedIff(c, r.heard.f, PairingType.Done, k.terms.network, device, k.nonce, k.key);
    }
    hide VerifyTagged, TaggedFrame, UntrustedType, OfferHeard;
  }

  /** An offer that is not to this attempt leaves it listening; a radio error ends it. */
  lemma HeardOtherwise(x: Agreement, c: Crypto, k: Client, m: Mem, device: u64, r: Radio, now: u32)
    requires (k.phase.Listening? || k.phase.AwaitingDone?) && Elapsed(now, k.startedAt) < 120000
    ensures r.heard.HearError? ==>
      var d := Decide(x, c, k, m, device, r, now);
      d.Stay? && GivesUp(k, d.client)
    ensures
      r.heard.Frame? && k.phase.Listening? && UntrustedType(r.heard.f) == 4
      && (forall o, key :: !OfferTo(x, c, k, device, r.heard.f, o, key)) ==>
        Decide(x, c, k, m, device, r, now) == Stay(k)
  {
    if r.heard.Frame? {
      OfferToIff(x, c, k, device, r.heard.f);
    }
    hide VerifyTagged, TaggedFrame, UntrustedType, ForUs, OfferTo;
  }

  /** An attempt starts exactly on a healthy transmitter with a free slot, a key pair and a nonce, from a new client. */
  lemma StartLaw(x: Agreement, k: Client, m: Mem, free: nat, transmitter: bool, device: u64, b: Beginning, r: Radio,
                 now: u32)
    ensures
      var t := Starts(x, k, m, free, transmitter, device, b, r, now);
      if k.phase.Idle? && m.health == Ready && transmitter && free != 0 && device != 0 && b.nonce != 0
         && b.private.Some? && x.public(b.private.value).Some? && Nonzero(x.public(b.private.value).value)
      then
        var public := x.public(b.private.value).value;
        var request := BuildRequest(device, b.nonce, public);
        && request.Some?
        && ChecksFor(k.(private := b.private.value, public := public, nonce := b.nonce, outgoing := request.value,
                        startedAt := now), t, Listening, r.startsCheck, now)
      else GivesUp(k, t)
  {
  }

  // ------------------------------------------------------------------ the key

  /** The binding key of terms and the node's public key, as the holder of the private key derives it. */
  ghost predicate DerivedFrom(x: Agreement, private: XKey, peer: XKey, o: Terms, nodePublic: XKey, key: Key)
  {
    DeriveBindingKey(x, private, peer, o.network, o.receiver, o.node, o.generation, nodePublic, o.receiverPublic)
      == Some(key)
  }

  /** Unless the derivation maps two different inputs to one key, a key stands for all identities and public keys. */
  lemma KeyBindsAll(x: Agreement, privateA: XKey, peerA: XKey, a: Terms, ap: XKey, privateB: XKey, peerB: XKey,
                    b: Terms, bp: XKey, key: Key)
    requires DerivedFrom(x, privateA, peerA, a, ap, key) && DerivedFrom(x, privateB, peerB, b, bp, key)
    ensures x.shared(privateA, peerA).Some? && x.shared(privateB, peerB).Some?
    ensures
      var i := Context(a.network, a.receiver, a.node, a.generation, ap, a.receiverPublic);
      var j := Context(b.network, b.receiver, b.node, b.generation, bp, b.receiverPublic);
      || (i != j && x.derive(x.shared(privateA, peerA).value, i) == x.derive(x.shared(privateB, peerB).value, j))
      || (a.network == b.network && a.receiver == b.receiver && a.node == b.node && a.generation == b.generation
          && ap == bp && a.receiverPublic == b.receiverPublic)
  {
    hide Context;
    if Context(a.network, a.receiver, a.node, a.generation, ap, a.receiverPublic)
       == Context(b.network, b.receiver, b.node, b.generation, bp, b.receiverPublic) {
      ContextInjective(a, ap, b, bp);
    }
  }
}
