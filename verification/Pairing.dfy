// Radio pairing frames and the binding key (cajui_pairing.cpp, first half).
module Pairing {
  import opened Wire
  import opened Protocol
  import opened Codec

  const X25519_SIZE := 32
  const PAIRING_PROFILE: u16 := 1

  const ZERO32: seq<byte> := ZERO16 + ZERO16

  /** An X25519 private or public key. */
  type XKey = k: seq<byte> | |k| == X25519_SIZE witness ZERO32

  /** X25519 and the derivation of a binding key, as the functions the firmware calls. */
  datatype Agreements = Agreements(
    public: XKey -> Option<XKey>,
    shared: (XKey, XKey) -> Option<XKey>,
    derive: (XKey, seq<byte>) -> Key)

  /** Diffie-Hellman commutes (section 6.1 of RFC 7748). */
  ghost predicate Commutes(x: Agreements)
  {
    forall a, b, pa, pb ::
      x.public(a) == Some(pa) && x.public(b) == Some(pb) ==> x.shared(a, pb) == x.shared(b, pa)
  }

  const PLAIN_AGREEMENT := Agreements(a => Some(a), (a, b) => None, (s, info) => ZERO16)

  type Agreement = x: Agreements | Commutes(x) witness PLAIN_AGREEMENT

  datatype PairingType = Request | Offer | Confirm | Done

  function TypeByte(t: PairingType): byte
  {
    match t case Request => 3 case Offer => 4 case Confirm => 5 case Done => 6
  }

  datatype Terms = Terms(
    network: u64, receiver: u64, node: u64, nonce: u64, generation: u64, profile: u16, receiverPublic: XKey)

  const NO_TERMS := Terms(0, 0, 0, 0, 0, 0, ZERO32)

  predicate Nonzero(k: XKey) { k != ZERO32 }

  // ------------------------------------------------------------------ frames

  function PairingHeader(t: PairingType, network: u64, node: u64, nonce: u64, length: nat): (h: seq<byte>)
    ensures |h| == HEADER_SIZE
  {
    Header(TypeByte(t), WIRE_V1, network, node, nonce, length)
  }

  function PairingNonce(t: PairingType, nonce: u64): seq<byte> { Nonce(TypeByte(t), WIRE_V1, nonce) }

  predicate ShapedAs(f: Frame, t: PairingType, size: nat, length: nat)
    requires size >= HEADER_SIZE
  {
    |f| == size && f[..4] == MAGIC && f[4] == WIRE_V1 && f[5] == TypeByte(t) && LengthAt(f) == length
  }

  /** GCM over an empty plaintext: the tag authenticates the given bytes. */
  function TagFor(c: Crypto, key: Key, t: PairingType, nonce: u64, authenticated: seq<byte>): Tag
  {
    c.encrypt(key, PairingNonce(t, nonce), authenticated, []).tag
  }

  predicate Checks(c: Crypto, key: Key, t: PairingType, nonce: u64, authenticated: seq<byte>, tag: Tag)
  {
    c.decrypt(key, PairingNonce(t, nonce), authenticated, [], tag).Some?
  }

  /** A tag checks exactly when it is the one the key holder computes. */
  lemma ChecksIff(c: Crypto, key: Key, t: PairingType, nonce: u64, authenticated: seq<byte>, tag: Tag)
    ensures Checks(c, key, t, nonce, authenticated, tag) <==> tag == TagFor(c, key, t, nonce, authenticated)
  {
    var n := PairingNonce(t, nonce);
    var s := c.encrypt(key, n, authenticated, []);
    assert |s.cipher| == 0 && s.cipher == [];
    assert c.decrypt(key, n, authenticated, s.cipher, s.tag) == Some([]);
    if Checks(c, key, t, nonce, authenticated, tag) {
      var p := c.decrypt(key, n, authenticated, [], tag).value;
      assert c.encrypt(key, n, authenticated, p) == Sealed([], tag);
      assert |p| == 0 && p == [];
    }
  }

  function BuildRequest(node: u64, nonce: u64, public: XKey): Option<Frame>
  {
    if node == 0 || nonce == 0 || !Nonzero(public) then None
    else Some(PairingHeader(Request, 0, node, nonce, 32) + public)
  }

  datatype Asked = Asked(node: u64, nonce: u64, public: XKey)

  function U64In(f: Frame, at: nat): u64
    requires at + 8 <= |f|
  {
    UnbeBound(f[at..at + 8]); Widths();
    Unbe(f[at..at + 8])
  }

  function U16In(f: Frame, at: nat): u16
    requires at + 2 <= |f|
  {
    UnbeBound(f[at..at + 2]); Widths();
    Unbe(f[at..at + 2])
  }

  function ParseRequest(f: Frame): Option<Asked>
  {
    if !ShapedAs(f, Request, 64, 32) then None
    else if U64In(f, 6) != 0 || U64In(f, 14) == 0 || U64In(f, 22) == 0 || !Nonzero(f[32..64]) then None
    else Some(Asked(U64In(f, 14), U64In(f, 22), f[32..64]))
  }

  predicate TermsFit(o: Terms)
  {
    && o.network != 0 && o.receiver != 0 && o.node != 0 && o.nonce != 0 && o.generation != 0
    && Nonzero(o.receiverPublic)
  }

  /** The authenticated bytes of an offer. */
  function OfferBody(o: Terms): (b: seq<byte>)
    ensures |b| == 82
  {
    PairingHeader(Offer, o.network, o.node, o.nonce, 50)
    + (o.receiverPublic + Be(o.receiver, 8) + Be(o.generation, 8) + Be(o.profile, 2))
  }

  function BuildOffer(c: Crypto, o: Terms, key: Key): Option<Frame>
  {
    if !TermsFit(o) then None else Some(OfferBody(o) + TagFor(c, key, Offer, o.nonce, OfferBody(o)))
  }

  function ParseOffer(f: Frame): Option<Terms>
  {
    if !ShapedAs(f, Offer, 98, 50) then None
    else
      var o := Terms(U64In(f, 6), U64In(f, 64), U64In(f, 14), U64In(f, 22), U64In(f, 72), U16In(f, 80), f[32..64]);
      if TermsFit(o) then Some(o) else None
  }

  predicate VerifyOffer(c: Crypto, f: Frame, key: Key)
  {
    var o := ParseOffer(f);
    o.Some? && Checks(c, key, Offer, o.value.nonce, f[..82], f[82..])
  }

  function TaggedFrame(c: Crypto, t: PairingType, network: u64, node: u64, nonce: u64, key: Key): Frame
  {
    PairingHeader(t, network, node, nonce, 0) + TagFor(c, key, t, nonce, PairingHeader(t, network, node, nonce, 0))
  }

  function BuildTagged(c: Crypto, t: PairingType, network: u64, node: u64, nonce: u64, key: Key): Option<Frame>
  {
    if (t != Confirm && t != PairingType.Done) || network == 0 || node == 0 || nonce == 0 then None
    else Some(TaggedFrame(c, t, network, node, nonce, key))
  }

  predicate VerifyTagged(c: Crypto, f: Frame, t: PairingType, network: u64, node: u64, nonce: u64, key: Key)
  {
    && (t == Confirm || t == PairingType.Done)
    && ShapedAs(f, t, 48, 0)
    && U64In(f, 6) == network && U64In(f, 14) == node && U64In(f, 22) == nonce
    && Checks(c, key, t, nonce, f[..32], f[32..])
  }

  // ------------------------------------------------------------------ inverse and canonical

  lemma HeaderReadsBack(t: PairingType, network: u64, node: u64, nonce: u64, length: nat, rest: seq<byte>)
    requires length < 0x1_0000
    ensures
      var f := PairingHeader(t, network, node, nonce, length) + rest;
      && f[..4] == MAGIC && f[4] == WIRE_V1 && f[5] == TypeByte(t) && LengthAt(f) == length
      && U64In(f, 6) == network && U64In(f, 14) == node && U64In(f, 22) == nonce
        && f[..32] == PairingHeader(t, network, node, nonce, length)
  {
    HeaderFields(TypeByte(t), WIRE_V1, network, node, nonce, length, rest);
  }

  lemma HeaderIsOwn(f: Frame, t: PairingType, size: nat, length: nat)
    requires size >= HEADER_SIZE && ShapedAs(f, t, size, length)
    ensures f[..32] == PairingHeader(t, U64In(f, 6), U64In(f, 14), U64In(f, 22), length)
  {
    Codec.HeaderRebuilt(f);
  }

  /** A request reads back, and anything that parses is the request of what it says. */
  lemma RequestRoundTrip(node: u64, nonce: u64, public: XKey)
    requires BuildRequest(node, nonce, public).Some?
    ensures ParseRequest(BuildRequest(node, nonce, public).value) == Some(Asked(node, nonce, public))
  {
    HeaderReadsBack(Request, 0, node, nonce, 32, public);
    var f := PairingHeader(Request, 0, node, nonce, 32) + public;
    assert f[32..64] == public;
  }

  lemma RequestCanonical(f: Frame)
    requires ParseRequest(f).Some?
    ensures var a := ParseRequest(f).value; BuildRequest(a.node, a.nonce, a.public) == Some(f)
  {
    HeaderIsOwn(f, Request, 64, 32);
    assert f == f[..32] + f[32..64];
  }

  lemma OfferFields(o: Terms, rest: seq<byte>)
    ensures
      var f := OfferBody(o) + rest;
      && f[32..64] == o.receiverPublic && U64In(f, 64) == o.receiver && U64In(f, 72) == o.generation
      && U16In(f, 80) == o.profile && f[..82] == OfferBody(o) && f[82..] == rest
  {
    var h := PairingHeader(Offer, o.network, o.node, o.nonce, 50);
    var a, b, d := Be(o.receiver, 8), Be(o.generation, 8), Be(o.profile, 2);
    var body := OfferBody(o);
    assert body == h + o.receiverPublic + a + b + d;
    assert body[32..64] == o.receiverPublic && body[64..72] == a && body[72..80] == b && body[80..82] == d;
    Inner(body, rest, 32, 64); Inner(body, rest, 64, 72); Inner(body, rest, 72, 80); Inner(body, rest, 80, 82);
    assert (body + rest)[..82] == body && (body + rest)[82..] == rest;
    Widths();
    UnbeBe(o.receiver, 8); UnbeBe(o.generation, 8); UnbeBe(o.profile, 2);
  }

  /** An offer reads back and verifies under its own key. */
  lemma OfferRoundTrip(c: Crypto, o: Terms, key: Key)
    requires TermsFit(o)
    ensures BuildOffer(c, o, key).Some? && ParseOffer(BuildOffer(c, o, key).value) == Some(o)
    ensures VerifyOffer(c, BuildOffer(c, o, key).value, key)
  {
    var tag := TagFor(c, key, Offer, o.nonce, OfferBody(o));
    var payload := o.receiverPublic + Be(o.receiver, 8) + Be(o.generation, 8) + Be(o.profile, 2);
    Assoc(PairingHeader(Offer, o.network, o.node, o.nonce, 50), payload, tag);
    HeaderReadsBack(Offer, o.network, o.node, o.nonce, 50, payload + tag);
    OfferFields(o, tag);
    ChecksIff(c, key, Offer, o.nonce, OfferBody(o), tag);
  }

  lemma OfferBodyRebuilt(f: Frame)
    requires ParseOffer(f).Some?
    ensures OfferBody(ParseOffer(f).value) == f[..82]
  {
    HeaderIsOwn(f, Offer, 98, 50);
    BeUnbe(f[64..72]); BeUnbe(f[72..80]); BeUnbe(f[80..82]);
    Join(f, 32, 64, 72); Join(f, 32, 72, 80); Join(f, 32, 80, 82); Join(f, 0, 32, 82);
    assert f[0..32] == f[..32] && f[0..82] == f[..82];
  }

  /** A frame that verifies as an offer is the one its key holder builds from its terms. */
  lemma OfferCanonical(c: Crypto, f: Frame, key: Key)
    requires VerifyOffer(c, f, key)
    ensures BuildOffer(c, ParseOffer(f).value, key) == Some(f)
  {
    var o := ParseOffer(f).value;
    OfferBodyRebuilt(f);
    ChecksIff(c, key, Offer, o.nonce, f[..82], f[82..]);
    assert f == f[..82] + f[82..];
  }

  /** A confirmation or a completion verifies exactly when it is the key holder's own frame. */
  lemma TaggedIff(c: Crypto, f: Frame, t: PairingType, network: u64, node: u64, nonce: u64, key: Key)
    requires t == Confirm || t == PairingType.Done
    ensures VerifyTagged(c, f, t, network, node, nonce, key) <==> f == TaggedFrame(c, t, network, node, nonce, key)
  {
    var h := PairingHeader(t, network, node, nonce, 0);
    var tag := TagFor(c, key, t, nonce, h);
    HeaderReadsBack(t, network, node, nonce, 0, tag);
    assert (h + tag)[32..] == tag;
    ChecksIff(c, key, t, nonce, h, tag);
    if VerifyTagged(c, f, t, network, node, nonce, key) {
      HeaderIsOwn(f, t, 48, 0);
      ChecksIff(c, key, t, nonce, f[..32], f[32..]);
      assert f == f[..32] + f[32..];
    }
  }

  /** No pairing frame opens as DATA or ACK, under any binding. */
  lemma PairingNeverOpens(c: Crypto, b: Binding, t: PairingType, network: u64, node: u64, nonce: u64, length: nat,
                          rest: seq<byte>)
    requires length < 0x1_0000
    ensures Open(c, b, PairingHeader(t, network, node, nonce, length) + rest).Failed?
  {
    HeaderReadsBack(t, network, node, nonce, length, rest);
  }

  // ------------------------------------------------------------------ the binding key

  /** network, receiver, node, generation, the node's key, the receiver's key. */
  function Context(network: u64, receiver: u64, node: u64, generation: u64, nodePublic: XKey,
                   receiverPublic: XKey): (i: seq<byte>)
    ensures |i| == 96
  {
    Be(network, 8) + Be(receiver, 8) + Be(node, 8) + Be(generation, 8) + nodePublic + receiverPublic
  }

  function DeriveBindingKey(x: Agreement, private: XKey, peer: XKey, network: u64, receiver: u64, node: u64,
                            generation: u64, nodePublic: XKey, receiverPublic: XKey): Option<Key>
  {
    if network == 0 || receiver == 0 || node == 0 || generation == 0 then None
    else match x.shared(private, peer)
      case None => None
      case Some(secret) => Some(x.derive(secret,
                                         Context(network, receiver, node, generation, nodePublic, receiverPublic)))
  }

  /** Both ends derive the same key, or neither does. */
  lemma SameKey(x: Agreement, nodePrivate: XKey, nodePublic: XKey, receiverPrivate: XKey, receiverPublic: XKey,
                network: u64, receiver: u64, node: u64, generation: u64)
    requires x.public(nodePrivate) == Some(nodePublic) && x.public(receiverPrivate) == Some(receiverPublic)
    ensures DeriveBindingKey(x, nodePrivate, receiverPublic, network, receiver, node, generation, nodePublic,
                             receiverPublic)
         == DeriveBindingKey(x, receiverPrivate, nodePublic, network, receiver, node, generation, nodePublic,
                             receiverPublic)
  {
    assert x.shared(nodePrivate, receiverPublic) == x.shared(receiverPrivate, nodePublic);
  }

  /** The context determines every identity and both public keys. */
  lemma ContextInjective(a: Terms, ap: XKey, b: Terms, bp: XKey)
    requires Context(a.network, a.receiver, a.node, a.generation, ap, a.receiverPublic)
          == Context(b.network, b.receiver, b.node, b.generation, bp, b.receiverPublic)
    ensures a.network == b.network && a.receiver == b.receiver && a.node == b.node && a.generation == b.generation
    ensures ap == bp && a.receiverPublic == b.receiverPublic
  {
    ContextParts(a, ap);
    ContextParts(b, bp);
    Widths();
    BeInjective(a.network, b.network, 8); BeInjective(a.receiver, b.receiver, 8);
    BeInjective(a.node, b.node, 8); BeInjective(a.generation, b.generation, 8);
  }

  lemma ContextParts(a: Terms, ap: XKey)
    ensures
      var i := Context(a.network, a.receiver, a.node, a.generation, ap, a.receiverPublic);
      && i[0..8] == Be(a.network, 8) && i[8..16] == Be(a.receiver, 8) && i[16..24] == Be(a.node, 8)
      && i[24..32] == Be(a.generation, 8) && i[32..64] == ap && i[64..96] == a.receiverPublic
  {
  }
}
