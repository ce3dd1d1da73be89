// The node and the receiver over a network that loses, duplicates, reorders and replays, with
// power cuts at both ends.
module DeliveryRuns {
  import opened Wire
  import opened Protocol
  import opened Codec
  import opened Records
  import opened Store
  import opened StoreInvariant
  import opened StoreOps
  import opened StoreRuns
  import opened StoreFits
  import opened StoreObject
  import opened StoreLaws
  import opened Delivery
  import opened NodeCounters

  // ------------------------------------------------------------------ the world

  /** One encryption: who sealed what under which key. */
  datatype Sealing = Sealing(b: Binding, m: Message)

  /** The two devices, and the keys nobody else holds. */
  datatype Setup = Setup(rx: Config, tx: Config, trusted: set<Key>)

  /** Both stores, the node's sender and every encryption either side ever made. */
  datatype World = World(rx: State, tx: State, sender: SenderState, sealed: set<Sealing>)

  function FrameOf(c: Crypto, x: Sealing): Frame
    requires x.m.kind.DataKind? ==> x.m.data.count <= MAX_READINGS
  {
    SealFrame(c, x.b, x.m)
  }

  predicate Sane(x: Sealing) { x.m.kind.DataKind? ==> x.m.data.count <= MAX_READINGS }

  /**
   * The network may deliver anything it ever saw, in any order and number, and anything it
   * makes up; but a frame that opens under a trusted key was sealed under that key.
   */
  ghost predicate Genuine(u: Setup, w: World, b: Binding, f: Frame)
  {
    b.key in u.trusted && Open(u.rx.c, b, f).Done? ==>
      exists x :: x in w.sealed && Sane(x) && x.b.key == b.key && FrameOf(u.rx.c, x) == f
  }

  datatype Action =
    | NodeStore(e: Event)
    | NodeRestart
    | NodeBegin(b: Binding, data: Data, version: byte, result: Result)
    | NodeAttempt
    | NodeAbandon
    | NodeAck(f: Frame)
    | HostStore(e: Event)
    | HostReceive(b: Binding, f: Frame, link: Link, power: i8, result: Result, ack: Frame)

  ghost predicate Next(u: Setup, v: World, a: Action, w: World)
  {
    match a
    case NodeStore(e) => Step(u.tx, v.tx, e, w.tx) && w == v.(tx := w.tx)
    case NodeRestart => w == v.(sender := IDLE_SENDER)
    case NodeBegin(b, data, version, result) =>
      && b.key in u.trusted && w.rx == v.rx
      && BeginStep(u.tx, v.tx, v.sender, b, data, version, w.tx, w.sender, result)
      && w.sealed == v.sealed +
           if BeginRefusal(v.sender, b, data, version).None? && result == Ok
           then {Sealing(b, DataMessage(data, version, w.sender.counter))} else {}
    case NodeAttempt => CanAttempt(v.sender) && w == v.(sender := Attempted(v.sender))
    case NodeAbandon => w == v.(sender := Abandoned(v.sender))
    case NodeAck(f) => Genuine(u, v, v.sender.binding, f) && w == v.(sender := AfterAck(u.tx.c, v.sender, f))
    case HostStore(e) =>
      && !(e.Finished? && e.op.OpCommit?) && !(e.Cut? && e.op.OpCommit?)
      && Step(u.rx, v.rx, e, w.rx) && w == v.(rx := w.rx)
    case HostReceive(b, f, link, power, result, ack) =>
      && Genuine(u, v, b, f) && |v.rx.h.log| < UINT64_MAX
      && ReceiveStep(u.rx, v.rx, b, f, link, power, w.rx, result, ack)
      && w.tx == v.tx && w.sender == v.sender
      && w.sealed == v.sealed + AckSealed(u, v, b, f, link, power, ack)
  }

  /** The encryption behind a produced acknowledgement. */
  ghost function AckSealed(u: Setup, v: World, b: Binding, f: Frame, link: Link, power: i8, ack: Frame): set<Sealing>
  {
    if ack == [] || |f| < 48 then {}
    else
      match Judge(u.rx, v.rx.m, b, f, link, power)
      case Refused(_) => {}
      case Repeat(receipt) => {Sealing(b, AckMessage(f, receipt.counter, receipt.ackPower))}
      case Fresh(_, receipt) => {Sealing(b, AckMessage(f, receipt.counter, receipt.ackPower))}
  }

  ghost predicate Run(u: Setup, ws: seq<World>, acts: seq<Action>)
  {
    |ws| == |acts| + 1 && forall i | 0 <= i < |acts| :: Next(u, ws[i], acts[i], ws[i + 1])
  }

  // ------------------------------------------------------------------ the invariant

  /** The encryption of an accepted sample's acknowledgement. */
  function AckOf(a: Accepted): Sealing
    requires 48 <= |a.frame|
  {
    Sealing(OwnerOf(a), AckMessage(a.frame, a.counter, a.ackPower))
  }

  ghost predicate IsAckOf(x: Sealing, a: Accepted) { 48 <= |a.frame| && x == AckOf(a) }

  /** A DATA encryption by the node: its counter was reserved, and no other used it. */
  ghost predicate DataFits(tx: State, x: Sealing)
  {
    Codec.Usable(x.b) && Sealable(x.m) && Floor(tx.d, tx.h, x.b.key, x.m.counter)
  }

  ghost predicate DataInv(tx: State, sealed: set<Sealing>)
  {
    && (forall x | x in sealed && x.m.kind.DataKind? :: DataFits(tx, x))
    && (forall x, y | x in sealed && y in sealed && x.m.kind.DataKind? && y.m.kind.DataKind? ::
          x.b.key == y.b.key && x.m.counter == y.m.counter ==> x == y)
  }

  /** An acknowledgement made before a migration, of a sample older than the one carried over. */
  ghost predicate Older(h: History, x: Sealing)
  {
    Codec.Usable(x.b) && Sealable(x.m) && exists a ::
      a in h.origin.carried && a.key == x.b.key && x.m.counter < a.counter
  }

  ghost predicate OfKnown(h: History, x: Sealing) { exists a :: Known(h, a) && IsAckOf(x, a) }

  ghost predicate AckInv(h: History, sealed: set<Sealing>)
  {
    && (forall x | x in sealed && x.m.kind.AckKind? :: OfKnown(h, x) || Older(h, x))
    && (forall x, y | x in sealed && y in sealed && x.m.kind.AckKind? && y.m.kind.AckKind? && Older(h, x)
        && Older(h, y) ::
          x.b.key == y.b.key && x.m.counter == y.m.counter ==> x == y)
  }

  /** The frame came from the node: it is one of its DATA encryptions under that key. */
  ghost predicate FromNode(c: Crypto, sealed: set<Sealing>, key: Key, f: Frame)
  {
    exists x :: x in sealed && Sane(x) && x.m.kind.DataKind? && x.b.key == key && FrameOf(c, x) == f
  }

  ghost predicate KnownFromNode(u: Setup, h: History, sealed: set<Sealing>)
  {
    forall a | Known(h, a) && a.key in u.trusted :: FromNode(u.rx.c, sealed, a.key, a.frame)
  }

  ghost predicate SenderInv(u: Setup, s: SenderState, sealed: set<Sealing>)
  {
    s.pending != [] ==>
      && s.binding.key in u.trusted && Codec.Usable(s.binding)
      && (exists m :: PendingIs(u.tx.c, s, sealed, m))
      && (forall x | x in sealed && x.m.kind.DataKind? && x.b.key == s.binding.key :: x.m.counter <= s.counter)
  }

  ghost predicate PendingIs(c: Crypto, s: SenderState, sealed: set<Sealing>, m: Message)
  {
    && Sealing(s.binding, m) in sealed && Sealable(m) && m.kind.DataKind?
    && m.counter == s.counter && m.version == s.version && SealFrame(c, s.binding, m) == s.pending
  }

  ghost predicate WorldInv(u: Setup, w: World)
  {
    && u.rx.role.Receiver? && u.tx.role.Transmitter? && u.rx.c == u.tx.c
    && SystemInv(u.rx, w.rx.m, w.rx.d, w.rx.h) && SystemInv(u.tx, w.tx.m, w.tx.d, w.tx.h)
    && DataInv(w.tx, w.sealed) && AckInv(w.rx.h, w.sealed)
    && KnownFromNode(u, w.rx.h, w.sealed) && SenderInv(u, w.sender, w.sealed)
  }

  // ------------------------------------------------------------------ each action keeps it

  lemma NodeStoreKeeps(u: Setup, v: World, e: Event, w: World)
    requires WorldInv(u, v) && Step(u.tx, v.tx, e, w.tx) && w == v.(tx := w.tx)
    ensures WorldInv(u, w)
  {
    hide SystemInv, Step, AckInv, KnownFromNode, SenderInv, Floor;
    StepKeeps(u.tx, v.tx, e, w.tx);
    forall x | x in w.sealed && x.m.kind.DataKind? ensures DataFits(w.tx, x) {
      assert DataFits(v.tx, x);
      StepKeepsFloor(u.tx, v.tx, e, w.tx, x.b.key, x.m.counter);
    }
  }

  /** A counter just reserved lies above everything sealed under its key. */
  lemma ReservedIsNew(cfg: Config, s: State, b: Binding, t: State, sealed: set<Sealing>)
    requires SystemInv(cfg, s.m, s.d, s.h) && Followed(cfg, s, OpReserve(b), t, Ok) && DataInv(s, sealed)
    ensures Authorized(t.m, b).Some?
    ensures
      var n := t.m.registry.entries[Authorized(t.m, b).value].counter;
      && n != 0
      && (forall x | x in sealed && x.m.kind.DataKind? && x.b.key == b.key :: x.m.counter < n)
      && Floor(t.d, t.h, b.key, n)
  {
    var slot := ReservedSlot(cfg, s, b, t);
    ReservedFacts(cfg, s, b, t, slot);
    var n := t.m.registry.entries[slot].counter;
    hide SystemInv, Followed;
    forall x | x in sealed && x.m.kind.DataKind? && x.b.key == b.key ensures x.m.counter < n {
      assert DataFits(s, x);
      OwnFloor(cfg, s, slot, x.m.counter);
    }
    assert CounterHeld(Reg(t.d).entries[slot], b.key, n);
  }

  /** A successful reservation is a finished one. */
  lemma ReservedSlot(cfg: Config, s: State, b: Binding, t: State) returns (slot: nat)
    requires Followed(cfg, s, OpReserve(b), t, Ok)
    ensures slot < BINDING_CAPACITY && Authorized(s.m, b) == Some(slot) == Authorized(t.m, b)
    ensures t.m.registry.entries[slot].counter == s.m.registry.entries[slot].counter + 1
    ensures t.m.health == Ready == s.m.health
    ensures Step(cfg, s, Finished(OpReserve(b)), t)
  {
    ReservePlanned(cfg, s, b);
    slot := Authorized(s.m, b).value;
    var es := s.m.registry.entries;
    SameMatches(es, es[slot := es[slot].(counter := es[slot].counter + 1)], b, BINDING_CAPACITY);
  }

  lemma ReservedFacts(cfg: Config, s: State, b: Binding, t: State, slot: nat)
    requires SystemInv(cfg, s.m, s.d, s.h) && Step(cfg, s, Finished(OpReserve(b)), t) && slot < BINDING_CAPACITY
    requires s.m.health == Ready == t.m.health && Authorized(t.m, b) == Some(slot) == Authorized(s.m, b)
    ensures Reg(t.d) == t.m.registry && Reg(s.d) == s.m.registry
    ensures s.m.registry.entries[slot].key == b.key == t.m.registry.entries[slot].key
    ensures s.m.registry.entries[slot].state.Active? && t.m.registry.entries[slot].state.Active?
  {
    hide Step;
    StepKeeps(cfg, s, Finished(OpReserve(b)), t);
    ReadyFacts(cfg, s.m, s.d, s.h);
    ReadyFacts(cfg, t.m, t.d, t.h);
    hide SystemInv;
  }

  /** While the key is enrolled in the slot, its counter bounds everything reserved for it. */
  lemma OwnFloor(cfg: Config, s: State, slot: nat, n: u64)
    requires SystemInv(cfg, s.m, s.d, s.h) && slot < BINDING_CAPACITY && !Reg(s.d).entries[slot].state.Empty?
    requires Floor(s.d, s.h, Reg(s.d).entries[slot].key, n)
    ensures n <= Reg(s.d).entries[slot].counter
  {
    var es := Reg(s.d).entries;
    assert NotGone(es, s.h) && Validated(cfg, es, Ret(s.d));
    hide SystemInv;
    var i :| 0 <= i < BINDING_CAPACITY && CounterHeld(es[i], es[slot].key, n);
    assert i == slot;
  }

  lemma NodeBeginKeeps(u: Setup, v: World, b: Binding, data: Data, version: byte, result: Result, w: World)
    requires WorldInv(u, v) && Next(u, v, NodeBegin(b, data, version, result), w)
    ensures WorldInv(u, w)
  {
    if BeginRefusal(v.sender, b, data, version).None? {
      var event := ReserveEvent(u.tx, v.tx, b, w.tx, result);
      if result == Ok {
        ReservedIsNew(u.tx, v.tx, b, w.tx, v.sealed);
        BegunKeeps(u, v, b, data, version, event, w);
      } else {
        assert w.sealed == v.sealed;
        assert w == v.(tx := w.tx);
        NodeStoreKeeps(u, v, event, v.(tx := w.tx));
      }
    } else {
      assert w.sealed == v.sealed;
      assert w == v;
    }
  }

  lemma ReserveEvent(cfg: Config, s: State, b: Binding, t: State, result: Result) returns (e: Event)
    requires Followed(cfg, s, OpReserve(b), t, result)
    ensures Step(cfg, s, e, t)
  {
    hide Step;
    if Step(cfg, s, Finished(OpReserve(b)), t) {
      e := Finished(OpReserve(b));
    } else {
      var k: nat :| Step(cfg, s, Cut(OpReserve(b), k), t);
      e := Cut(OpReserve(b), k);
    }
  }

  lemma BegunKeeps(u: Setup, v: World, b: Binding, data: Data, version: byte, e: Event, w: World)
    requires WorldInv(u, v) && Step(u.tx, v.tx, e, w.tx) && w.rx == v.rx
    requires b.key in u.trusted && Codec.Usable(b) && ValidData(data) && KnownVersion(version)
    requires w.sender.counter != 0 && w.sender == Begun(u.tx.c, b, data, version, w.sender.counter)
    requires forall x | x in v.sealed && x.m.kind.DataKind? && x.b.key == b.key :: x.m.counter < w.sender.counter
    requires Floor(w.tx.d, w.tx.h, b.key, w.sender.counter)
    requires w.sealed == v.sealed + {Sealing(b, DataMessage(data, version, w.sender.counter))}
    ensures WorldInv(u, w)
  {
    hide SystemInv, Step, Floor, ValidData, Next, Known, Codec.Usable;
    NodeStoreKeeps(u, v, e, v.(tx := w.tx));
    var m := DataMessage(data, version, w.sender.counter);
    var x := Sealing(b, m);
    MoreSealed(u, v.rx.h, v.sealed, w.sealed);
    assert PendingIs(u.tx.c, w.sender, w.sealed, m);
    assert DataFits(w.tx, x);
    assert forall y | y in w.sealed && y.m.kind.AckKind? :: y in v.sealed;
  }

  /** More encryptions never make a frame less the node's. */
  lemma MoreSealed(u: Setup, h: History, a: set<Sealing>, b: set<Sealing>)
    requires KnownFromNode(u, h, a) && a <= b
    ensures KnownFromNode(u, h, b)
  {
    hide Known;
    forall x | Known(h, x) && x.key in u.trusted ensures FromNode(u.rx.c, b, x.key, x.frame) {
      assert FromNode(u.rx.c, a, x.key, x.frame);
    }
  }

  lemma MoreSealedSender(u: Setup, s: SenderState, a: set<Sealing>, b: set<Sealing>)
    requires SenderInv(u, s, a) && a <= b && forall x | x in b && x !in a :: x.m.kind.AckKind?
    ensures SenderInv(u, s, b)
  {
    if s.pending != [] {
      var m :| PendingIs(u.tx.c, s, a, m);
      assert PendingIs(u.tx.c, s, b, m);
    }
  }

  lemma HostStoreKeeps(u: Setup, v: World, e: Event, w: World)
    requires WorldInv(u, v) && Step(u.rx, v.rx, e, w.rx) && w == v.(rx := w.rx)
    requires !(e.Finished? && e.op.OpCommit?) && !(e.Cut? && e.op.OpCommit?)
    ensures WorldInv(u, w) && w.rx.h.log == v.rx.h.log && w.rx.h.origin == v.rx.h.origin
  {
    hide SystemInv, DataInv, AckInv, KnownFromNode, SenderInv, LoadDisk, PlanOf, Allowed;
    StepKeeps(u.rx, v.rx, e, w.rx);
    if !e.Remount? {
      OperationSound(u.rx, v.rx.m, v.rx.d, v.rx.h, e.op);
      if e.Cut? {
        PrefixLog(v.rx.h, v.rx.d, PlanOf(u.rx, v.rx.m, v.rx.d, e.op).writes, e.k);
      }
    }
    assert w.rx.h.log == w.rx.h.log[..|v.rx.h.log|] == v.rx.h.log;
    KnownSame(u, v.rx.h, w.rx.h, v.sealed);
  }

  /** What is known depends on the samples only. */
  lemma KnownSame(u: Setup, h: History, t: History, sealed: set<Sealing>)
    requires t.log == h.log && t.origin == h.origin
    ensures AckInv(h, sealed) ==> AckInv(t, sealed)
    ensures KnownFromNode(u, h, sealed) ==> KnownFromNode(u, t, sealed)
  {
    assert forall a :: Known(h, a) <==> Known(t, a);
    assert forall x :: OfKnown(h, x) <==> OfKnown(t, x);
    assert forall x :: Older(h, x) <==> Older(t, x);
    hide Known, OfKnown, Older, FromNode;
  }

  lemma KnownGrows(h: History, t: History)
    requires h.log <= t.log && t.origin == h.origin
    ensures forall a | Known(h, a) :: Known(t, a)
    ensures forall x | OfKnown(h, x) :: OfKnown(t, x)
    ensures forall x | Older(h, x) :: Older(t, x)
    ensures forall x | Older(t, x) :: Older(h, x)
  {
    forall a | Known(h, a) ensures Known(t, a) {
      if a !in h.origin.carried {
        var i :| h.origin.base <= i < |h.log| && h.log[i] == a;
        assert t.log[i] == a;
      }
    }
  }

  /** The sample a fresh frame commits, and the acknowledgement it gets. */
  lemma FreshAccepted(u: Setup, v: World, b: Binding, f: Frame, link: Link, power: i8)
    requires Judge(u.rx, v.rx.m, b, f, link, power).Fresh?
    ensures
      var r := Judge(u.rx, v.rx.m, b, f, link, power).receipt;
      && Authorized(v.rx.m, b).Some?
      && (var a := AcceptedBy(v.rx.m, Authorized(v.rx.m, b).value, r);
          && OwnerOf(a) == b && a.frame == f && a.counter == r.counter && a.ackPower == r.ackPower && 48 <= |f|
          && Open(u.rx.c, b, f).Done? && f[5] == 1)
  {
    OpenedFields(u.rx.c, b, f);
  }

  lemma RepeatAccepted(u: Setup, v: World, b: Binding, f: Frame, link: Link, power: i8) returns (a: Accepted)
    requires WorldInv(u, v) && Judge(u.rx, v.rx.m, b, f, link, power).Repeat?
    ensures
      var r := Judge(u.rx, v.rx.m, b, f, link, power).stored;
      && Known(v.rx.h, a) && 48 <= |f| && a.frame == f
      && Sealing(b, AckMessage(f, r.counter, r.ackPower)) == AckOf(a)
  {
    hide Open, Judge, SystemInv, Authorized, AckMessage, DataInv, AckInv, KnownFromNode, SenderInv, Known;
    RepeatSlot(u.rx, v.rx, b, f, link, power);
    var slot := Authorized(v.rx.m, b).value;
    a := ReceiptTells(u.rx, v.rx, slot);
  }

  /** A used slot's receipt is of a known sample of the slot's credential. */
  lemma ReceiptTells(cfg: Config, s: State, slot: nat) returns (a: Accepted)
    requires SystemInv(cfg, s.m, s.d, s.h) && s.m.health == Ready && cfg.role.Receiver? && slot < BINDING_CAPACITY
    requires s.m.receipts[slot].counter != 0
    ensures Known(s.h, a) && SameSample(s.m.receipts[slot], a)
    ensures OwnerOf(a) == Binding(s.m.registry.network, s.m.registry.entries[slot].node,
                                  s.m.registry.entries[slot].key, true)
  {
    var reg, receipts := Reg(s.d), s.d.receipts;
    assert s.m.receipts[slot] == Live(reg, receipts)[slot] && s.m.registry == reg;
    assert QueueInv(cfg.c, reg, Head(s.d), receipts, s.d.ring, s.h);
    hide SystemInv, QueueInv, Known;
    a := ToldSample(cfg.c, reg, Head(s.d), receipts, s.d.ring, s.h, slot);
  }

  /** A DATA frame the network may deliver under a trusted key is one of the node's encryptions. */
  lemma GenuineData(u: Setup, w: World, b: Binding, f: Frame)
    requires Genuine(u, w, b, f) && b.key in u.trusted && Open(u.rx.c, b, f).Done? && 48 <= |f| && f[5] == 1
    ensures FromNode(u.rx.c, w.sealed, b.key, f)
  {
    var x :| x in w.sealed && Sane(x) && x.b.key == b.key && FrameOf(u.rx.c, x) == f;
    KindOfFrame(u.rx.c, x);
  }

  lemma KindOfFrame(c: Crypto, x: Sealing)
    requires Sane(x)
    ensures |FrameOf(c, x)| >= HEADER_SIZE && FrameOf(c, x)[5] == KindByte(x.m.kind)
  {
    var h := HeaderOf(x.b, x.m);
    var s := c.encrypt(x.b.key, NonceOf(x.m), h, Payload(x.m));
    assert h[5] == KindByte(x.m.kind);
    assert FrameOf(c, x) == h + s.cipher + s.tag;
  }

  lemma HostReceiveKeeps(u: Setup, v: World, b: Binding, f: Frame, link: Link, power: i8, result: Result, ack: Frame,
                         w: World)
    requires WorldInv(u, v) && Next(u, v, HostReceive(b, f, link, power, result, ack), w)
    ensures WorldInv(u, w)
  {
    hide SystemInv, DataInv, SenderInv, Followed, Genuine, Open, SealFrame, KnownFromNode, AckInv, Known;
    MoreSealedSender(u, v.sender, v.sealed, w.sealed);
    match Judge(u.rx, v.rx.m, b, f, link, power)
    case Refused(_) =>
      assert w.sealed == v.sealed;
      assert w == v;
    case Repeat(r) =>
      var a := RepeatAccepted(u, v, b, f, link, power);
      AckAdded(u, v, w, Sealing(b, AckMessage(f, r.counter, r.ackPower)), a);
    case Fresh(expected, r) =>
      FreshKeeps(u, v, b, f, link, power, result, ack, w);
  }

  /** One more acknowledgement of a known sample. */
  lemma AckAdded(u: Setup, v: World, w: World, x: Sealing, a: Accepted)
    requires WorldInv(u, v) && Known(w.rx.h, a) && IsAckOf(x, a)
    requires v.rx.h.log <= w.rx.h.log && v.rx.h.origin == w.rx.h.origin
    requires v.sealed <= w.sealed <= v.sealed + {x} && w.tx == v.tx && w.sender == v.sender
    requires SystemInv(u.rx, w.rx.m, w.rx.d, w.rx.h)
    requires KnownFromNode(u, w.rx.h, v.sealed)
    ensures WorldInv(u, w)
  {
    hide SystemInv, Genuine, DataFits, Known;
    MoreSealedSender(u, v.sender, v.sealed, w.sealed);
    MoreSealed(u, w.rx.h, v.sealed, w.sealed);
    assert OfKnown(w.rx.h, x);
    KnownGrows(v.rx.h, w.rx.h);
    OlderByKey(u.rx, w.rx, a, x, x);
    hide OfKnown, Older, IsAckOf, KnownFromNode, FromNode;
  }

  lemma FreshKeeps(u: Setup, v: World, b: Binding, f: Frame, link: Link, power: i8, result: Result, ack: Frame,
                   w: World)
    requires WorldInv(u, v) && Next(u, v, HostReceive(b, f, link, power, result, ack), w)
    requires Judge(u.rx, v.rx.m, b, f, link, power).Fresh?
    ensures WorldInv(u, w)
  {
    hide SystemInv, Followed, Genuine, DataInv, AckInv, SenderInv, KnownFromNode, AcceptedBy, Open, Known;
    var expected, r := Judge(u.rx, v.rx.m, b, f, link, power).expected, Judge(u.rx, v.rx.m, b, f, link, power).receipt;
    FreshAccepted(u, v, b, f, link, power);
    CommitEffect(u.rx, v.rx, b, expected, r, w.rx, result);
    var a := AcceptedBy(v.rx.m, Authorized(v.rx.m, b).value, r);
    if w.rx.h.log == v.rx.h.log {
      assert w.sealed == v.sealed;
      UnloggedKeeps(u, v, w);
    } else {
      assert w.rx.h.log == v.rx.h.log + [a];
      BaseReached(u.rx, v.rx);
      NewFromNode(u, v, b, f, a, w.rx.h);
      AckAdded(u, v, w, Sealing(b, AckMessage(f, r.counter, r.ackPower)), a);
    }
  }

  lemma BaseReached(cfg: Config, s: State)
    requires SystemInv(cfg, s.m, s.d, s.h) && cfg.role.Receiver?
    ensures s.h.origin.base <= |s.h.log|
  {
    assert CarriedInv(cfg.c, s.h);
  }

  /** The sample just logged came from the node, if its key is trusted. */
  lemma NewFromNode(u: Setup, v: World, b: Binding, f: Frame, a: Accepted, t: History)
    requires Genuine(u, v, b, f) && KnownFromNode(u, v.rx.h, v.sealed)
    requires Open(u.rx.c, b, f).Done? && 48 <= |f| && f[5] == 1 && a.key == b.key && a.frame == f
    requires t.log == v.rx.h.log + [a] && t.origin == v.rx.h.origin && t.origin.base <= |v.rx.h.log|
    ensures KnownFromNode(u, t, v.sealed) && Known(t, a)
  {
    if a.key in u.trusted {
      GenuineData(u, v, b, f);
    }
    hide FromNode, Genuine, Open;
    assert t.log[|v.rx.h.log|] == a;
    forall x | Known(t, x) && x.key in u.trusted ensures FromNode(u.rx.c, v.sealed, x.key, x.frame) {
      if x != a {
        assert Known(v.rx.h, x);
      }
    }
  }

  lemma UnloggedKeeps(u: Setup, v: World, w: World)
    requires WorldInv(u, v) && w.rx.h.log == v.rx.h.log && w.rx.h.origin == v.rx.h.origin && w.tx == v.tx
      && w.sender == v.sender && w.sealed == v.sealed
    requires SystemInv(u.rx, w.rx.m, w.rx.d, w.rx.h)
    ensures WorldInv(u, w)
  {
    KnownSame(u, v.rx.h, w.rx.h, v.sealed);
  }

  lemma NextKeeps(u: Setup, v: World, a: Action, w: World)
    requires WorldInv(u, v) && Next(u, v, a, w)
    ensures WorldInv(u, w)
  {
    match a
    case NodeStore(e) => NodeStoreKeeps(u, v, e, w);
    case NodeBegin(b, data, version, result) => NodeBeginKeeps(u, v, b, data, version, result, w);
    case HostStore(e) => HostStoreKeeps(u, v, e, w);
    case HostReceive(b, f, link, power, result, ack) => HostReceiveKeeps(u, v, b, f, link, power, result, ack, w);
    case _ => SenderKeeps(u, v, a, w);
  }

  lemma SenderKeeps(u: Setup, v: World, a: Action, w: World)
    requires WorldInv(u, v) && Next(u, v, a, w)
    requires a.NodeRestart? || a.NodeAttempt? || a.NodeAbandon? || a.NodeAck?
    ensures WorldInv(u, w)
  {
    hide SystemInv, DataInv, AckInv, KnownFromNode, Genuine, Open;
    if w.sender.pending != [] {
      var m :| PendingIs(u.tx.c, v.sender, v.sealed, m);
      assert PendingIs(u.tx.c, w.sender, w.sealed, m);
    }
  }

  /** Over every run of the two devices and the network. */
  lemma {:induction false} EveryWorld(u: Setup, ws: seq<World>, acts: seq<Action>, n: nat)
    requires Run(u, ws, acts) && n < |ws| && WorldInv(u, ws[0])
    ensures WorldInv(u, ws[n])
  {
    hide WorldInv, Next;
    if n != 0 {
      EveryWorld(u, ws, acts, n - 1);
      assert Next(u, ws[n - 1], acts[n - 1], ws[n]);
      NextKeeps(u, ws[n - 1], acts[n - 1], ws[n]);
    }
  }

  /** The encryption behind a sample the receiver carries. */
  ghost function SealingOf(c: Crypto, a: Accepted): Sealing
    requires Opens(c, a)
  {
    Sealing(OwnerOf(a), Open(c, OwnerOf(a), a.frame).value)
  }

  ghost function CarriedSealings(c: Crypto, carried: set<Accepted>): set<Sealing>
    requires forall a | a in carried :: Opens(c, a)
  {
    set a | a in carried :: SealingOf(c, a)
  }

  lemma CarriedOpen(cfg: Config, s: State)
    requires SystemInv(cfg, s.m, s.d, s.h) && cfg.role.Receiver?
    ensures forall a | a in s.h.origin.carried :: Opens(cfg.c, a)
    ensures forall a, b | a in s.h.origin.carried && b in s.h.origin.carried && a.key == b.key :: a == b
  {
    hide LogInv, Resting, Owned, ReceiptInv, RingInv, Opens, CredentialInv, RegistryFits, Recovered;
  }

  /**
   * Two devices before anything was delivered: the receiver new, or migrated with the samples
   * its snapshot had, for which the transmitter's counters have been reserved.
   */
  lemma StartingWorld(u: Setup, rx: State, tx: State)
    requires u.rx.role.Receiver? && u.tx.role.Transmitter? && u.rx.c == u.tx.c
    requires SystemInv(u.rx, rx.m, rx.d, rx.h) && SystemInv(u.tx, tx.m, tx.d, tx.h)
    requires rx.h.origin.base == |rx.h.log|
    requires forall a | a in rx.h.origin.carried :: Floor(tx.d, tx.h, a.key, a.counter)
    ensures forall a | a in rx.h.origin.carried :: Opens(u.rx.c, a)
    ensures WorldInv(u, World(rx, tx, IDLE_SENDER, CarriedSealings(u.rx.c, rx.h.origin.carried)))
  {
    hide SystemInv, Opens, Floor;
    CarriedOpen(u.rx, rx);
    var sealed := CarriedSealings(u.rx.c, rx.h.origin.carried);
    forall a | a in rx.h.origin.carried
      ensures var x := SealingOf(u.rx.c, a); x in sealed && x.b.key == a.key && x.m.kind.DataKind? && DataFits(tx, x)
      ensures FromNode(u.rx.c, sealed, a.key, a.frame)
    {
      CarriedFits(u.rx.c, tx, a);
      assert SealingOf(u.rx.c, a) in sealed;
    }
  }

  lemma CarriedFits(c: Crypto, tx: State, a: Accepted)
    requires Opens(c, a) && Floor(tx.d, tx.h, a.key, a.counter)
    ensures
      var x := SealingOf(c, a);
      x.m.kind.DataKind? && DataFits(tx, x) && Sane(x) && FrameOf(c, x) == a.frame
  {
    SealOpen(c, OwnerOf(a), a.frame);
    hide SealFrame, Open, Floor;
  }

  // ------------------------------------------------------------------ delivered means durable

  /** The pending frame was accepted: the receiver knows it as a sample of this node. */
  ghost predicate Durably(w: World)
  {
    exists a :: Known(w.rx.h, a) && IsPending(w.sender, a)
  }

  predicate IsPending(s: SenderState, a: Accepted)
  {
    a.frame == s.pending && OwnerOf(a) == s.binding && a.counter == s.counter
  }

  /** What an opened acknowledgement says about the encryption it is. */
  lemma OpenedSealing(c: Crypto, b: Binding, f: Frame, x: Sealing)
    requires Open(c, b, f).Done? && Sane(x) && Sealable(x.m) && Codec.Usable(x.b) && FrameOf(c, x) == f
      && x.b.key == b.key
    ensures x.b.network == b.network && x.b.node == b.node && Open(c, b, f).value == Normal(x.m)
  {
    SealedHeader(c, x.b, x.m);
    assert SealFrame(c, x.b, x.m) == SealFrame(c, b, x.m) by { assert HeaderOf(x.b, x.m) == HeaderOf(b, x.m); }
    OpenSeal(c, b, x.m);
  }

  lemma AckIsSealable(c: Crypto, a: Accepted)
    requires Opens(c, a)
    ensures 48 <= |a.frame| && Sealable(AckOf(a).m) && Codec.Usable(AckOf(a).b) && Sane(AckOf(a))
    ensures Normal(AckOf(a).m) == AckOf(a).m
  {
    OpenedIsUsable(c, OwnerOf(a), a.frame);
  }

  lemma KnownOpens(cfg: Config, s: State, a: Accepted)
    requires SystemInv(cfg, s.m, s.d, s.h) && cfg.role.Receiver? && Known(s.h, a)
    ensures Opens(cfg.c, a)
  {
    assert LogInv(cfg.c, s.h.log, s.h.origin.base) && CarriedInv(cfg.c, s.h);
    hide SystemInv, Opens;
  }

  /** There is one known sample for each key and counter. */
  lemma KnownOnce(cfg: Config, s: State, a: Accepted, b: Accepted)
    requires SystemInv(cfg, s.m, s.d, s.h) && cfg.role.Receiver? && Known(s.h, a) && Known(s.h, b)
    requires a.key == b.key && a.counter == b.counter
    ensures a == b
  {
    assert LogInv(cfg.c, s.h.log, s.h.origin.base) && CarriedInv(cfg.c, s.h);
    hide SystemInv, Opens;
    OnceInHistory(cfg.c, s.h, a, b);
  }

  lemma OnceInHistory(c: Crypto, h: History, a: Accepted, b: Accepted)
    requires LogInv(c, h.log, h.origin.base) && CarriedInv(c, h) && Known(h, a) && Known(h, b)
    requires a.key == b.key && a.counter == b.counter
    ensures a == b
  {
    hide Opens, LogInv, SameOwner;
    if a in h.origin.carried && b in h.origin.carried {
    } else if a in h.origin.carried {
      CarriedApart(c, h, a, b);
    } else if b in h.origin.carried {
      CarriedApart(c, h, b, a);
    } else {
      hide CarriedInv;
      var i :| h.origin.base <= i < |h.log| && h.log[i] == a;
      var j :| h.origin.base <= j < |h.log| && h.log[j] == b;
      OnceInLog(c, h, i, j);
    }
  }

  lemma OnceInLog(c: Crypto, h: History, i: nat, j: nat)
    requires LogInv(c, h.log, h.origin.base) && h.origin.base <= i < |h.log| && h.origin.base <= j < |h.log|
    requires h.log[i].key == h.log[j].key && h.log[i].counter == h.log[j].counter
    ensures i == j
  {
    hide Opens;
    assert SameOwner(h.log[i], h.log[j]);
  }

  lemma CarriedApart(c: Crypto, h: History, a: Accepted, b: Accepted)
    requires CarriedInv(c, h) && a in h.origin.carried && Known(h, b) && b !in h.origin.carried && a.key == b.key
    ensures a.counter < b.counter
  {
    hide Opens;
    var j :| h.origin.base <= j < |h.log| && h.log[j] == b;
    assert SameOwner(a, h.log[j]);
  }

  /** A frame sealed under the key with the sender's counter is the pending frame. */
  lemma SameCounterSameFrame(c: Crypto, tx: State, s: SenderState, sealed: set<Sealing>, m: Message, x: Sealing)
    requires DataInv(tx, sealed) && PendingIs(c, s, sealed, m)
    requires x in sealed && x.m.kind.DataKind? && x.b.key == s.binding.key && x.m.counter == s.counter
    ensures FrameOf(c, x) == s.pending
  {
  }

  /** The counter of a DATA frame is its encryption's. */
  lemma DataCounter(c: Crypto, tx: State, sealed: set<Sealing>, b: Binding, f: Frame) returns (x: Sealing)
    requires DataInv(tx, sealed) && FromNode(c, sealed, b.key, f) && Open(c, b, f).Done?
    ensures x in sealed && x.m.kind.DataKind? && x.b.key == b.key && Sane(x) && FrameOf(c, x) == f
    ensures x.m.counter == Open(c, b, f).value.counter
  {
    x :| x in sealed && Sane(x) && x.m.kind.DataKind? && x.b.key == b.key && FrameOf(c, x) == f;
    assert DataFits(tx, x);
    OpenedSealing(c, b, f, x);
  }

  /** The genuine acknowledgement of a frame: which known sample it answers. */
  lemma AckAnswers(u: Setup, w: World, f: Frame) returns (a: Accepted)
    requires WorldInv(u, w) && Genuine(u, w, w.sender.binding, f) && w.sender.pending != []
    requires AckResult(u.tx.c, w.sender, f) == Ok
    ensures Known(w.rx.h, a) && OwnerOf(a) == w.sender.binding && a.counter == w.sender.counter
  {
    hide SystemInv, DataInv, Older, OfKnown, Known, KnownFromNode;
    var b := w.sender.binding;
    var x :| x in w.sealed && Sane(x) && x.b.key == b.key && FrameOf(u.rx.c, x) == f;
    KindOfFrame(u.rx.c, x);
    OpenedKind(u.rx.c, b, f);
    var y := AckFitting(u, w, x);
    OpenedSealing(u.rx.c, b, f, x);
    NotOlder(u, w, x);
    a := AnsweredSample(u, w, x);
  }

  /** Every acknowledgement of the world is one a key holder seals. */
  lemma AckFitting(u: Setup, w: World, x: Sealing) returns (y: Message)
    requires WorldInv(u, w) && x in w.sealed && x.m.kind.AckKind?
    ensures Sealable(x.m) && Codec.Usable(x.b) && y == Normal(x.m) && y.counter == x.m.counter
  {
    y := Normal(x.m);
    if !Older(w.rx.h, x) {
      var a :| Known(w.rx.h, a) && IsAckOf(x, a);
      KnownOpens(u.rx, w.rx, a);
      hide WorldInv;
      AckIsSealable(u.rx.c, a);
    }
  }

  /** No acknowledgement from before a migration has the pending counter. */
  lemma NotOlder(u: Setup, w: World, x: Sealing)
    requires WorldInv(u, w) && w.sender.pending != [] && x.b.key == w.sender.binding.key
      && x.m.counter == w.sender.counter
    ensures !Older(w.rx.h, x)
  {
    hide SystemInv, DataInv, AckInv;
    if Older(w.rx.h, x) {
      var a :| a in w.rx.h.origin.carried && a.key == x.b.key && x.m.counter < a.counter;
      CarriedFromNode(u, w, a);
      assert false;
    }
  }

  /** The node sealed a carried sample of its key, so its counter is no greater than the pending one. */
  lemma CarriedFromNode(u: Setup, w: World, a: Accepted)
    requires WorldInv(u, w) && w.sender.pending != [] && a in w.rx.h.origin.carried && a.key == w.sender.binding.key
    ensures a.counter <= w.sender.counter
  {
    assert Known(w.rx.h, a);
    KnownOpens(u.rx, w.rx, a);
    hide SystemInv, AckInv, Known;
    assert FromNode(u.rx.c, w.sealed, a.key, a.frame);
    LoggedDone(u.rx.c, a);
    var y := DataCounter(u.rx.c, w.tx, w.sealed, OwnerOf(a), a.frame);
  }

  lemma AnsweredSample(u: Setup, w: World, x: Sealing) returns (a: Accepted)
    requires WorldInv(u, w) && x in w.sealed && x.m.kind.AckKind? && !Older(w.rx.h, x)
    ensures Known(w.rx.h, a) && IsAckOf(x, a)
  {
    a :| Known(w.rx.h, a) && IsAckOf(x, a);
  }

  lemma OpenedKind(c: Crypto, b: Binding, f: Frame)
    requires Open(c, b, f).Done?
    ensures 48 <= |f| && f[5] == KindByte(Open(c, b, f).value.kind)
  {
    OpenedFields(c, b, f);
  }

  lemma LoggedDone(c: Crypto, a: Accepted)
    requires Opens(c, a)
    ensures Open(c, OwnerOf(a), a.frame).Done? && Open(c, OwnerOf(a), a.frame).value.counter == a.counter
  {
  }

  /**
   * Delivered means durable: whenever the node accepts an acknowledgement, the receiver has
   * that exact frame, in its durable log or in the receipt a migration carried over.
   */
  lemma DeliveredIsDurable(u: Setup, v: World, f: Frame, w: World)
    requires WorldInv(u, v) && Next(u, v, NodeAck(f), w) && AckResult(u.tx.c, v.sender, f) == Ok
    ensures w.sender.delivered && Durably(w)
  {
    hide SystemInv, Genuine, AckInv, Open, Known;
    var a := AckAnswers(u, v, f);
    KnownOpens(u.rx, v.rx, a);
    LoggedDone(u.rx.c, a);
    assert FromNode(u.rx.c, v.sealed, a.key, a.frame);
    var x := DataCounter(u.rx.c, v.tx, v.sealed, OwnerOf(a), a.frame);
    var m :| PendingIs(u.tx.c, v.sender, v.sealed, m);
    SameCounterSameFrame(u.tx.c, v.tx, v.sender, v.sealed, m, x);
    assert IsPending(w.sender, a);
  }

  // ------------------------------------------------------------------ stable acknowledgements and nonces

  /** Two acknowledgements under one key and counter are the same encryption. */
  lemma OneAckEach(u: Setup, w: World, x: Sealing, y: Sealing)
    requires WorldInv(u, w) && x in w.sealed && y in w.sealed && x.m.kind.AckKind? && y.m.kind.AckKind?
    requires x.b.key == y.b.key && x.m.counter == y.m.counter
    ensures x == y
  {
    hide SystemInv, DataInv, KnownFromNode, SenderInv, Known;
    if !Older(w.rx.h, x) && !Older(w.rx.h, y) {
      var a := AnsweredSample(u, w, x);
      var b := AnsweredSample(u, w, y);
      KnownOnce(u.rx, w.rx, a, b);
    } else if !Older(w.rx.h, x) {
      var a := AnsweredSample(u, w, x);
      OlderByKey(u.rx, w.rx, a, x, y);
    } else if !Older(w.rx.h, y) {
      var b := AnsweredSample(u, w, y);
      OlderByKey(u.rx, w.rx, b, y, x);
    }
  }

  /** An older acknowledgement never has the counter of a known sample of its key. */
  lemma OlderByKey(cfg: Config, s: State, a: Accepted, x: Sealing, y: Sealing)
    requires SystemInv(cfg, s.m, s.d, s.h) && cfg.role.Receiver? && Known(s.h, a) && IsAckOf(x, a)
    requires x.b.key == y.b.key && x.m.counter == y.m.counter
    ensures !Older(s.h, y)
  {
    hide Opens, Sealable, Owned, ReceiptInv, RingInv, LogInv, Resting, CredentialInv, RegistryFits, Agrees;
    assert CarriedInv(cfg.c, s.h);
    forall b | b in s.h.origin.carried && b.key == a.key ensures b.counter <= a.counter {
      if a !in s.h.origin.carried {
        var i :| s.h.origin.base <= i < |s.h.log| && s.h.log[i] == a;
        assert SameOwner(b, s.h.log[i]);
      }
    }
  }

  lemma {:induction false} SealedGrows(u: Setup, ws: seq<World>, acts: seq<Action>, i: nat, j: nat)
    requires Run(u, ws, acts) && i <= j < |ws|
    ensures ws[i].sealed <= ws[j].sealed
  {
    hide ReceiveStep, BeginStep, Step, Genuine, AckSealed, AfterAck;
    if i < j {
      SealedGrows(u, ws, acts, i, j - 1);
      assert Next(u, ws[j - 1], acts[j - 1], ws[j]);
    }
  }

  /**
   * Stable acknowledgements: over a whole run, with retries, restarts and changes of the power
   * command, every acknowledgement produced for one binding key and counter is the same bytes.
   */
  lemma StableAcks(u: Setup, ws: seq<World>, acts: seq<Action>, i: nat, j: nat, x: Sealing, y: Sealing)
    requires Run(u, ws, acts) && i <= j < |ws| && WorldInv(u, ws[0])
    requires x in ws[i].sealed && y in ws[j].sealed && x.m.kind.AckKind? && y.m.kind.AckKind?
    requires x.b.key == y.b.key && x.m.counter == y.m.counter
    ensures FrameOf(u.rx.c, x) == FrameOf(u.rx.c, y)
  {
    EveryWorld(u, ws, acts, j);
    SealedGrows(u, ws, acts, i, j);
    hide WorldInv, Run;
    OneAckEach(u, ws[j], x, y);
  }

  /** What one encryption binds to its nonce. */
  predicate SameInput(x: Sealing, y: Sealing)
    requires Sane(x) && Sane(y)
  {
    HeaderOf(x.b, x.m) == HeaderOf(y.b, y.m) && Payload(x.m) == Payload(y.m)
  }

  lemma SealingsApart(u: Setup, w: World, x: Sealing, y: Sealing)
    requires WorldInv(u, w)
    requires x in w.sealed && y in w.sealed && x.b.key == y.b.key && NonceOf(x.m) == NonceOf(y.m)
    ensures Sane(x) && Sane(y) && SameInput(x, y)
  {
    NonceInjective(KindByte(x.m.kind), x.m.version, x.m.counter, KindByte(y.m.kind), y.m.version, y.m.counter);
    if x.m.kind.AckKind? {
      OneAckEach(u, w, x, y);
    } else {
      assert DataFits(w.tx, x) && DataFits(w.tx, y);
    }
  }

  /**
   * Nonce safety of DATA and ACK: over a whole run no key encrypts two different header and
   * payload pairs under one nonce.
   */
  lemma NonceSafety(u: Setup, ws: seq<World>, acts: seq<Action>, n: nat, x: Sealing, y: Sealing)
    requires Run(u, ws, acts) && n < |ws| && WorldInv(u, ws[0])
    requires x in ws[n].sealed && y in ws[n].sealed && x.b.key == y.b.key && NonceOf(x.m) == NonceOf(y.m)
    ensures Sane(x) && Sane(y) && SameInput(x, y)
  {
    EveryWorld(u, ws, acts, n);
    SealingsApart(u, ws[n], x, y);
  }
}
