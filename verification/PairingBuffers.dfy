// The byte buffers pairing frames are built in (cajui_pairing.cpp): each builder fills a frame
// buffer in place and yields the frame of the function of the same name in Pairing.
module PairingBuffers {
  import opened Wire
  import opened Protocol
  import opened Codec
  import opened Pairing

  /** Appends bytes after those already written. */
  method PutBytes(h: array<byte>, at: nat, bytes: seq<byte>, ghost done: seq<byte>)
    requires at + |bytes| <= h.Length && h[..at] == done
    modifies h
    ensures h[..at + |bytes|] == done + bytes
  {
    forall i | 0 <= i < |bytes| {
      h[at + i] := bytes[i];
    }
  }

  /** `header`: the thirty-two bytes every pairing frame starts with. */
  method FillHeader(h: array<byte>, t: PairingType, network: u64, node: u64, nonce: u64, length: nat)
    requires h.Length == MAX_FRAME
    modifies h
    ensures h[..HEADER_SIZE] == PairingHeader(t, network, node, nonce, length)
  {
    ghost var done: seq<byte> := MAGIC + [WIRE_V1, TypeByte(t)];
    PutBytes(h, 0, MAGIC + [WIRE_V1, TypeByte(t)], []);
    PutNext(h, 6, network, 8, done);
    done := done + Be(network, 8);
    PutNext(h, 14, node, 8, done);
    done := done + Be(node, 8);
    PutNext(h, 22, nonce, 8, done);
    done := done + Be(nonce, 8);
    PutNext(h, 30, length, 2, done);
  }

  method RunBuildRequest(node: u64, nonce: u64, public: XKey) returns (frame: Option<Frame>)
    ensures frame == BuildRequest(node, nonce, public)
  {
    if node == 0 || nonce == 0 || !Nonzero(public) {
      return None;
    }
    var h := new byte[MAX_FRAME](i => 0);
    FillHeader(h, Request, 0, node, nonce, 32);
    PutBytes(h, 32, public, PairingHeader(Request, 0, node, nonce, 32));
    return Some(h[..64]);
  }

  method RunBuildOffer(c: Crypto, o: Terms, key: Key) returns (frame: Option<Frame>)
    ensures frame == BuildOffer(c, o, key)
  {
    if || o.network == 0 || o.receiver == 0 || o.node == 0 || o.nonce == 0 || o.generation == 0
       || !Nonzero(o.receiverPublic) {
      return None;
    }
    hide Be, PairingHeader;
    var h := new byte[MAX_FRAME](i => 0);
    FillHeader(h, Offer, o.network, o.node, o.nonce, 50);
    ghost var head, body := PairingHeader(Offer, o.network, o.node, o.nonce, 50), o.receiverPublic;
    PutBytes(h, 32, o.receiverPublic, head);
    PutNext(h, 64, o.receiver, 8, head + body);
    Assoc(head, body, Be(o.receiver, 8));
    body := body + Be(o.receiver, 8);
    PutNext(h, 72, o.generation, 8, head + body);
    Assoc(head, body, Be(o.generation, 8));
    body := body + Be(o.generation, 8);
    PutNext(h, 80, o.profile, 2, head + body);
    Assoc(head, body, Be(o.profile, 2));
    var tag := TagFor(c, key, Offer, o.nonce, h[..82]);
    PutBytes(h, 82, tag, OfferBody(o));
    return Some(h[..98]);
  }

  method RunBuildTagged(c: Crypto, t: PairingType, network: u64, node: u64, nonce: u64, key: Key)
    returns (frame: Option<Frame>)
    ensures frame == BuildTagged(c, t, network, node, nonce, key)
  {
    if (t != Confirm && t != PairingType.Done) || network == 0 || node == 0 || nonce == 0 {
      return None;
    }
    var h := new byte[MAX_FRAME](i => 0);
    FillHeader(h, t, network, node, nonce, 0);
    var tag := TagFor(c, key, t, nonce, h[..32]);
    PutBytes(h, 32, tag, PairingHeader(t, network, node, nonce, 0));
    return Some(h[..48]);
  }

  /** `shaped`: size, magic, version, type and announced length. */
  method RunShaped(f: Frame, t: PairingType, size: nat, length: nat) returns (ok: bool)
    requires size >= HEADER_SIZE
    ensures ok <==> ShapedAs(f, t, size, length)
  {
    if |f| != size || f[..4] != MAGIC || f[4] != WIRE_V1 || f[5] != TypeByte(t) {
      return false;
    }
    var announced := Get(f, 30, 2);
    return announced == length;
  }

  method RunParseRequest(f: Frame) returns (asked: Option<Asked>)
    ensures asked == ParseRequest(f)
  {
    var shaped := RunShaped(f, Request, 64, 32);
    if !shaped {
      return None;
    }
    var network := Get(f, 6, 8);
    var node := Get(f, 14, 8);
    var nonce := Get(f, 22, 8);
    if network != 0 || node == 0 || nonce == 0 || !Nonzero(f[32..64]) {
      return None;
    }
    UnbeBound(f[14..22]); UnbeBound(f[22..30]);
    Widths();
    return Some(Asked(node, nonce, f[32..64]));
  }

  method RunParseOffer(f: Frame) returns (terms: Option<Terms>)
    ensures terms == ParseOffer(f)
  {
    var shaped := RunShaped(f, Offer, 98, 50);
    if !shaped {
      return None;
    }
    var network := Get(f, 6, 8);
    var node := Get(f, 14, 8);
    var nonce := Get(f, 22, 8);
    var receiver := Get(f, 64, 8);
    var generation := Get(f, 72, 8);
    var profile := Get(f, 80, 2);
    UnbeBound(f[6..14]); UnbeBound(f[14..22]); UnbeBound(f[22..30]);
    UnbeBound(f[64..72]); UnbeBound(f[72..80]); UnbeBound(f[80..82]);
    Widths();
    var o := Terms(network, receiver, node, nonce, generation, profile, f[32..64]);
    if o.network != 0 && o.receiver != 0 && o.node != 0 && o.nonce != 0 && o.generation != 0
      && Nonzero(o.receiverPublic) {
      return Some(o);
    }
    return None;
  }
}
