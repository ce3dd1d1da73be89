// Re-pairing never cuts a node off: the generation under which the node's latest sample was
// accepted stays Active through pairings, lost replies and power cuts.
module StoreServing {
  import opened Protocol
  import opened Codec
  import opened Records
  import opened Store
  import opened StoreInvariant
  import opened StoreOps
  import opened StoreRuns

  /** The last accepted sample of the node. */
  ghost predicate IsLatest(log: seq<Accepted>, node: u64, i: nat)
  {
    i < |log| && log[i].node == node && forall j | i < j < |log| :: log[j].node != node
  }

  predicate NoSample(log: seq<Accepted>, node: u64) { forall i | 0 <= i < |log| :: log[i].node != node }

  /**
   * The generation of the node's latest sample: of the last one accepted here or, before any
   * was, the one it used when its records were migrated.
   */
  ghost predicate Latest(h: History, node: u64, generation: u64)
  {
    || (exists i: nat :: IsLatest(h.log, node, i) && h.log[i].generation == generation)
    || (NoSample(h.log, node) && exists a :: CarriedBy(h, node, generation, a))
  }

  predicate CarriedBy(h: History, node: u64, generation: u64, a: Accepted)
  {
    a in h.origin.carried && a.node == node && a.generation == generation && a.generation in h.origin.serving
  }

  /** The generation of the node's latest sample is Active. */
  ghost predicate Serving(reg: Registry, h: History, node: u64)
  {
    forall generation | Latest(h, node, generation) :: ActiveGeneration(reg.entries, generation)
  }

  /** Slots active under the generation stay so. */
  ghost predicate KeepsGeneration(a: Entries, b: Entries, generation: u64)
  {
    forall s | 0 <= s < BINDING_CAPACITY ::
      a[s].state.Active? && a[s].generation == generation ==> b[s].state.Active? && b[s].generation == generation
  }

  lemma KeepsServing(a: Registry, b: Registry, h: History, node: u64)
    requires Serving(a, h, node)
    requires forall generation | Latest(h, node, generation) :: KeepsGeneration(a.entries, b.entries, generation)
    ensures Serving(b, h, node)
  {
    hide Latest;
    forall generation | Latest(h, node, generation) ensures ActiveGeneration(b.entries, generation) {
      assert ActiveGeneration(a.entries, generation);
      var s :| 0 <= s < BINDING_CAPACITY && a.entries[s].state.Active? && a.entries[s].generation == generation;
      assert KeepsGeneration(a.entries, b.entries, generation);
    }
  }

  // ------------------------------------------------------------------ what the receipts say about the samples

  /** The samples of a node share its entries; what a live receipt says of them. */
  ghost predicate SlotTells(reg: Registry, receipts: map<nat, ReceiptRecord>, h: History, s: nat)
    requires s < BINDING_CAPACITY
  {
    && IsLive(reg, receipts, s) && Tells(receipts[s], h)
    && (forall a | (a in h.log || a in h.origin.carried) && a.generation == reg.entries[s].generation ::
        a.node == reg.entries[s].node)
  }

  lemma LiveTells(cfg: Config, d: Disk, h: History, s: nat)
    requires Inv(cfg, d, h) && cfg.role.Receiver? && s < BINDING_CAPACITY && IsLive(Reg(d), d.receipts, s)
    ensures SlotTells(Reg(d), d.receipts, h, s)
  {
    assert ReceiptInv(Reg(d), d.receipts, h, s);
    forall a | (a in h.log || a in h.origin.carried) && a.generation == Reg(d).entries[s].generation
      ensures a.node == Reg(d).entries[s].node
    {
      assert Owned(Reg(d), d.receipts, h, a);
      assert OwnedBy(Reg(d), d.receipts, s, a);
    }
  }

  /** The slot active under the generation of the node's latest sample is the node's, and has its receipt. */
  lemma LatestSlot(cfg: Config, m: Mem, d: Disk, h: History, node: u64, generation: u64, s: nat)
    requires SystemInv(cfg, m, d, h) && m.health == Ready && cfg.role.Receiver?
    requires Latest(h, node, generation) && s < BINDING_CAPACITY
    requires m.registry.entries[s].state.Active? && m.registry.entries[s].generation == generation
    ensures m.registry.entries[s].node == node && m.receipts[s].counter != 0
    ensures IsLive(Reg(d), d.receipts, s) && m.receipts[s] == d.receipts[s] && m.registry == Reg(d)
  {
    var reg := Reg(d);
    assert m.receipts[s] == Live(reg, d.receipts)[s] && m.registry == reg && Inv(cfg, d, h);
    hide SystemInv;
    var a := LatestSample(h, node, generation);
    LatestOwned(cfg, d, h, s, a);
  }

  lemma LatestSample(h: History, node: u64, generation: u64) returns (a: Accepted)
    requires Latest(h, node, generation)
    ensures (a in h.log || a in h.origin.carried) && a.generation == generation && a.node == node
  {
    if NoSample(h.log, node) && exists b :: CarriedBy(h, node, generation, b) {
      a :| CarriedBy(h, node, generation, a);
    } else {
      var i: nat :| IsLatest(h.log, node, i) && h.log[i].generation == generation;
      a := h.log[i];
    }
  }

  lemma LatestOwned(cfg: Config, d: Disk, h: History, s: nat, a: Accepted)
    requires Inv(cfg, d, h) && cfg.role.Receiver? && s < BINDING_CAPACITY && Reg(d).entries[s].state.Active?
    requires (a in h.log || a in h.origin.carried) && a.generation == Reg(d).entries[s].generation
    ensures IsLive(Reg(d), d.receipts, s) && Reg(d).entries[s].node == a.node && d.receipts[s].counter != 0
  {
    assert Owned(Reg(d), d.receipts, h, a);
    assert OwnedBy(Reg(d), d.receipts, s, a);
    assert QueueInv(cfg.c, Reg(d), Head(d), d.receipts, d.ring, h);
    hide Inv, QueueInv, Owned;
    var b := ToldSample(cfg.c, Reg(d), Head(d), d.receipts, d.ring, h, s);
    OpenedFields(cfg.c, Binding(b.network, b.node, b.key, true), b.frame);
  }

  /** No used generation of the node reaches further than the latest one. */
  lemma LatestFurthest(reg: Registry, receipts: map<nat, ReceiptRecord>, h: History, node: u64, generation: u64,
                       s: nat, k: nat)
    requires s < BINDING_CAPACITY && k < BINDING_CAPACITY && SlotTells(reg, receipts, h, s)
      && SlotTells(reg, receipts, h, k)
    requires Latest(h, node, generation) && reg.entries[s].generation == generation && reg.entries[s].node == node
    requires reg.entries[k].node == node && reg.entries[k].state.Active? && Resting(reg.entries, h)
    requires forall a, b | a in h.origin.carried && b in h.origin.carried ::
      a.node == b.node && a.generation in h.origin.serving && b.generation in h.origin.serving ==> a == b
    ensures receipts[k].through <= receipts[s].through
    ensures receipts[k].through == receipts[s].through ==> reg.entries[k].generation == generation
  {
    hide Newest;
    if NoSample(h.log, node) {
      var a :| CarriedBy(h, node, generation, a);
      assert receipts[k].through == 0 && receipts[s].through == 0;
      var b :| b in h.origin.carried && SameSample(receipts[k], b);
      assert ActiveGeneration(reg.entries, b.generation);
    } else {
      var i: nat :| IsLatest(h.log, node, i) && h.log[i].generation == generation;
      if receipts[s].through >= 1 {
        assert h.log[receipts[s].through - 1] in h.log;
      }
      if receipts[k].through >= 1 {
        assert h.log[receipts[k].through - 1] in h.log;
      }
    }
  }

  lemma OneSlotEach(cfg: Config, m: Mem, d: Disk, h: History, i: nat, j: nat)
    requires SystemInv(cfg, m, d, h) && m.health == Ready && i < BINDING_CAPACITY && j < BINDING_CAPACITY
    requires !m.registry.entries[i].state.Empty? && !m.registry.entries[j].state.Empty?
    requires m.registry.entries[i].generation == m.registry.entries[j].generation
    ensures i == j
  {
    assert m.registry == Reg(d);
    FoundUnique(cfg, m.registry.entries, Ret(d), i, j);
  }

  /** The slot `activateAlongside` keeps is the one whose generation the node used last. */
  lemma KeepsTheLatest(cfg: Config, m: Mem, d: Disk, h: History, node: u64, generation: u64, s: nat)
    requires SystemInv(cfg, m, d, h) && m.health == Ready && cfg.role.Receiver?
    requires Latest(h, node, generation) && s < BINDING_CAPACITY
    requires m.registry.entries[s].state.Active? && m.registry.entries[s].generation == generation
    ensures Keep(m, node, BINDING_CAPACITY) == s
  {
    LatestSlot(cfg, m, d, h, node, generation, s);
    assert Used(m, node, s);
    var k := Keep(m, node, BINDING_CAPACITY);
    UsedIsLive(cfg, m, d, h, node, k);
    assert Inv(cfg, d, h) && Resting(Reg(d).entries, h) && CarriedInv(cfg.c, h);
    hide SystemInv, Inv, Latest, Resting;
    LiveTells(cfg, d, h, s);
    LiveTells(cfg, d, h, k);
    hide SlotTells;
    LatestFurthest(Reg(d), d.receipts, h, node, generation, s, k);
    OneSlotEach(cfg, m, d, h, s, k);
  }

  lemma UsedIsLive(cfg: Config, m: Mem, d: Disk, h: History, node: u64, k: nat)
    requires SystemInv(cfg, m, d, h) && m.health == Ready && cfg.role.Receiver? && k < BINDING_CAPACITY
      && Used(m, node, k)
    ensures IsLive(Reg(d), d.receipts, k) && m.receipts[k] == d.receipts[k]
  {
    assert m.receipts[k] == Live(Reg(d), d.receipts)[k];
  }

  // ------------------------------------------------------------------ one operation

  /**
   * Operations that end a node's service on purpose: an explicit activation for the node, the
   * revocation of the generation it uses, and a reset.
   */
  ghost predicate Disruptive(op: Op, h: History, node: u64)
  {
    match op
    case OpActivate(n, _) => n == node
    case OpRevoke(_, generation) => Latest(h, node, generation)
    case OpReset(_) => true
    case _ => false
  }

  /** The node is served after every prefix of the writes. */
  ghost predicate Serves(d: Disk, h: History, ws: seq<Write>, node: u64)
    decreases ws
  {
    && Serving(Reg(d), h, node)
    && (ws != [] ==> Serves(Apply(d, ws[0]), Track(h, d, ws[0]), ws[1..], node))
  }

  lemma {:induction false} ServesPrefix(d: Disk, h: History, ws: seq<Write>, node: u64, k: nat)
    requires Serves(d, h, ws, node) && k <= |ws|
    ensures Serving(Reg(ApplyAll(d, ws[..k])), TrackAll(h, d, ws[..k]), node)
    decreases ws
  {
    if k != 0 {
      ServesPrefix(Apply(d, ws[0]), Track(h, d, ws[0]), ws[1..], node, k - 1);
      assert ws[1..][..k - 1] == ws[..k][1..];
    }
  }

  /** A registry write that keeps the generation of the latest sample active. */
  lemma KeptByRegistry(d: Disk, h: History, r: Registry, node: u64)
    requires Serving(Reg(d), h, node)
    requires forall generation | Latest(h, node, generation) :: KeepsGeneration(Reg(d).entries, r.entries, generation)
    ensures Serves(d, h, [SaveRegistry(r)], node)
  {
    LatestSame(h, Track(h, d, SaveRegistry(r)), node);
    KeepsServing(Reg(d), r, h, node);
    assert Serves(Apply(d, SaveRegistry(r)), Track(h, d, SaveRegistry(r)), [], node);
  }

  lemma NothingWritten(d: Disk, h: History, node: u64)
    requires Serving(Reg(d), h, node)
    ensures Serves(d, h, [], node)
  {
  }

  lemma RegistryIsDurable(cfg: Config, m: Mem, d: Disk, h: History)
    requires SystemInv(cfg, m, d, h) && m.health == Ready
    ensures m.registry == Reg(d)
  {
    hide Inv;
  }

  lemma AlongsideServes(cfg: Config, m: Mem, d: Disk, h: History, paired: u64, generation: u64, node: u64)
    requires SystemInv(cfg, m, d, h) && m.health == Ready && cfg.role.Receiver?
    requires Serving(Reg(d), h, node)
    ensures Serves(d, h, AlongsidePlan(cfg, m, paired, generation).writes, node)
  {
    var p := AlongsidePlan(cfg, m, paired, generation);
    if p.writes != [] {
      var r := p.writes[0].registry;
      assert p.writes == [SaveRegistry(r)] && m.registry == Reg(d);
      forall g, s: nat | Latest(h, node, g) && s < BINDING_CAPACITY && m.registry.entries[s].state.Active?
        && m.registry.entries[s].generation == g
        ensures r.entries[s].state.Active? && r.entries[s].generation == g
      {
        LatestSlot(cfg, m, d, h, node, g, s);
        if paired == node {
          KeepsTheLatest(cfg, m, d, h, node, g, s);
        }
      }
      KeptByRegistry(d, h, r, node);
    }
  }

  lemma ActivateServes(cfg: Config, m: Mem, d: Disk, h: History, paired: u64, generation: u64, node: u64)
    requires SystemInv(cfg, m, d, h) && m.health == Ready && cfg.role.Receiver?
    requires Serving(Reg(d), h, node) && paired != node
    ensures Serves(d, h, ActivatePlan(m, paired, generation).writes, node)
  {
    var p := ActivatePlan(m, paired, generation);
    if p.writes != [] {
      var r := p.writes[0].registry;
      assert p.writes == [SaveRegistry(r)] && m.registry == Reg(d);
      forall g, s: nat | Latest(h, node, g) && s < BINDING_CAPACITY && m.registry.entries[s].state.Active?
        && m.registry.entries[s].generation == g
        ensures r.entries[s].state.Active? && r.entries[s].generation == g
      {
        LatestSlot(cfg, m, d, h, node, g, s);
      }
      KeptByRegistry(d, h, r, node);
    }
  }

  lemma RevokeServes(cfg: Config, m: Mem, d: Disk, h: History, n: u64, generation: u64, node: u64)
    requires SystemInv(cfg, m, d, h) && m.health == Ready && cfg.role.Receiver?
    requires Serving(Reg(d), h, node) && !Disruptive(OpRevoke(n, generation), h, node)
    ensures Serves(d, h, RevokePlan(m, n, generation).writes, node)
  {
    hide SystemInv, Serving, Find;
    RegistryIsDurable(cfg, m, d, h);
    var p := RevokePlan(m, n, generation);
    if p.writes != [] {
      var r := p.writes[0].registry;
      assert p.writes == [SaveRegistry(r)] && m.registry == Reg(d);
      KeptByRegistry(d, h, r, node);
    }
  }

  lemma ReserveServes(cfg: Config, m: Mem, d: Disk, h: History, b: Binding, node: u64)
    requires SystemInv(cfg, m, d, h) && m.health == Ready && Serving(Reg(d), h, node)
    ensures Serves(d, h, ReservePlan(cfg, m, b).writes, node)
  {
    var p := ReservePlan(cfg, m, b);
    if p.writes != [] {
      var r := p.writes[0].registry;
      assert p.writes == [SaveRegistry(r)] && m.registry == Reg(d);
      KeptByRegistry(d, h, r, node);
    }
  }

  /** The writes of a placement at a slot that is empty or revoked. */
  lemma PlaceServes(m: Mem, d: Disk, h: History, ws: seq<Write>, slot: nat, x: Credential, node: u64)
    requires m.registry == Reg(d) && Serving(Reg(d), h, node) && slot < BINDING_CAPACITY
    requires ws == [] || (|ws| == 1 && ws[0].SaveRetired?)
    requires !m.registry.entries[slot].state.Active?
    ensures Serves(d, h, PrepareAt(m, ws, slot, x).writes, node)
  {
    var p := PrepareAt(m, ws, slot, x);
    var last := p.writes[|ws|..];
    var d1 := if ws == [] then d else Apply(d, ws[0]);
    if last != [] {
      assert last == [SaveRegistry(last[0].registry)];
      KeptByRegistry(d1, h, last[0].registry, node);
    }
    assert p.writes == ws + last;
    if ws != [] {
      assert p.writes[1..] == last;
    }
  }

  /** A new credential only takes a slot that is empty or revoked. */
  lemma PrepareServes(cfg: Config, m: Mem, d: Disk, h: History, x: Credential, node: u64)
    requires SystemInv(cfg, m, d, h) && m.health == Ready && Serving(Reg(d), h, node)
    ensures Serves(d, h, PreparePlan(cfg, m, x).writes, node)
  {
    hide SystemInv, WellFormed, IsRetired, Clashes, RetireOnce, Serving, SameNetwork, Find, PrepareAt, Serves;
    RegistryIsDurable(cfg, m, d, h);
    NothingWritten(d, h, node);
    var empty := FirstEmpty(m.registry.entries, BINDING_CAPACITY);
    if empty.Some? {
      PlaceServes(m, d, h, [], empty.value, x, node);
    } else {
      var freed := Reclaimable(m, BINDING_CAPACITY);
      if freed.Some? {
        var l := RetireOnce(cfg.c, m.retired, m.registry.entries[freed.value]);
        PlaceServes(m.(retired := l), d, h, [SaveRetired(l)], freed.value, x, node);
      }
    }
  }

  // ------------------------------------------------------------------ commit

  /** After one more sample: its own generation if it is the node's, else what it was. */
  lemma LatestAfter(h: History, t: History, a: Accepted, node: u64, generation: u64)
    requires t.log == h.log + [a] && t.origin == h.origin && Latest(t, node, generation)
    ensures if a.node == node then generation == a.generation else Latest(h, node, generation)
  {
    assert t.log[|h.log|] == a && forall j | 0 <= j < |h.log| :: h.log[j] == t.log[j];
    if exists i: nat :: IsLatest(t.log, node, i) && t.log[i].generation == generation {
      var i: nat :| IsLatest(t.log, node, i) && t.log[i].generation == generation;
      if i < |h.log| {
        assert t.log[|h.log|].node != node;
        assert IsLatest(h.log, node, i) && h.log[i].generation == generation;
      }
    } else {
      assert t.log[|h.log|].node != node;
      var b :| CarriedBy(t, node, generation, b);
      assert CarriedBy(h, node, generation, b) && NoSample(h.log, node);
    }
  }

  lemma ServingSame(reg: Registry, h: History, t: History, node: u64)
    requires t.log == h.log && t.origin == h.origin && Serving(reg, h, node)
    ensures Serving(reg, t, node)
  {
    LatestSame(h, t, node);
  }

  lemma LatestSame(h: History, t: History, node: u64)
    requires t.log == h.log && t.origin == h.origin
    ensures forall generation :: Latest(t, node, generation) <==> Latest(h, node, generation)
  {
    assert forall generation, a :: CarriedBy(t, node, generation, a) <==> CarriedBy(h, node, generation, a);
  }

  /** The sample becomes the latest of its node, and its own slot is the active one. */
  lemma AcceptedServes(reg: Registry, h: History, t: History, a: Accepted, slot: nat, node: u64)
    requires Serving(reg, h, node) && slot < BINDING_CAPACITY && t.log == h.log + [a] && t.origin == h.origin
    requires reg.entries[slot].state.Active? && reg.entries[slot].generation == a.generation
    ensures Serving(reg, t, node)
  {
    forall generation | Latest(t, node, generation) ensures ActiveGeneration(reg.entries, generation) {
      LatestAfter(h, t, a, node, generation);
      hide Latest;
    }
  }

  /** Superseding the node's other generations after its sample was accepted. */
  lemma SupersededServes(reg: Registry, r: Registry, h: History, t: History, a: Accepted, slot: nat, node: u64)
    requires Serving(reg, t, node) && slot < BINDING_CAPACITY && t.log == h.log + [a] && t.origin == h.origin
    requires reg.entries[slot].state.Active? && reg.entries[slot].generation == a.generation
    requires r.entries == Superseding(reg.entries, a.node, slot)
    requires forall g, s | Latest(h, node, g) && 0 <= s < BINDING_CAPACITY ::
      reg.entries[s].state.Active? && reg.entries[s].generation == g ==> reg.entries[s].node == node
    requires forall s | 0 <= s < BINDING_CAPACITY ::
      reg.entries[s].state.Active? && reg.entries[s].generation == a.generation ==> s == slot
    ensures Serving(r, t, node)
  {
    forall generation | Latest(t, node, generation) ensures KeepsGeneration(reg.entries, r.entries, generation) {
      LatestAfter(h, t, a, node, generation);
      hide Latest;
    }
    KeepsServing(reg, r, t, node);
  }

  /** Where a node's latest generation is active, the entry is that node's. */
  lemma LatestIsTheNodes(cfg: Config, m: Mem, d: Disk, h: History, node: u64)
    requires SystemInv(cfg, m, d, h) && m.health == Ready && cfg.role.Receiver?
    ensures forall g, s | Latest(h, node, g) && 0 <= s < BINDING_CAPACITY ::
      m.registry.entries[s].state.Active? && m.registry.entries[s].generation == g ==>
        m.registry.entries[s].node == node
  {
    forall g, s: nat | Latest(h, node, g) && s < BINDING_CAPACITY
      && m.registry.entries[s].state.Active? && m.registry.entries[s].generation == g
      ensures m.registry.entries[s].node == node
    {
      LatestSlot(cfg, m, d, h, node, g, s);
    }
  }

  /** What the writes of an acceptance do to the registry and the log, whatever precedes them. */
  lemma AcceptServes(d: Disk, h: History, m: Mem, ws: seq<Write>, slot: nat, b: Binding, receipt: Receipt, node: u64)
    requires Serves(d, h, ws, node)
    requires ws == [] || (|ws| == 1 && ws[0].SaveHead?)
    requires m.registry == Reg(d) && m.tail == |h.log| && slot < BINDING_CAPACITY
      && Matches(m.registry.entries[slot], b)
    requires forall g, s | Latest(h, node, g) && 0 <= s < BINDING_CAPACITY ::
      m.registry.entries[s].state.Active? && m.registry.entries[s].generation == g ==>
        m.registry.entries[s].node == node
    requires forall s | 0 <= s < BINDING_CAPACITY ::
      m.registry.entries[s].state.Active? && m.registry.entries[s].generation == m.registry.entries[slot].generation
      ==> s == slot
    ensures Serves(d, h, AcceptPlan(m, ws, slot, b, receipt).writes, node)
  {
    var q, r := SaveQueue(ItemOf(m, slot, receipt)), SaveReceipt(slot, RecordOf(m, slot, receipt));
    var p := AcceptPlan(m, ws, slot, b, receipt);
    var a := AcceptedBy(m, slot, receipt);
    var d0 := if ws == [] then d else Apply(d, ws[0]);
    var d1 := Apply(d0, q);
    var d2 := Apply(d1, r);
    var t := Track(h, d1, r);
    assert Reg(d2) == Reg(d1) == Reg(d) && t.log == h.log + [a];
    AcceptedServes(Reg(d), h, t, a, slot, node);
    hide Serving, ItemOf, RecordOf, AcceptedBy;
    var next := Superseding(m.registry.entries, b.node, slot);
    var last := p.writes[|ws| + 2..];
    if last != [] {
      assert last == [last[0]] && last[0].SaveRegistry? && last[0].registry.entries == next;
      SupersededServes(Reg(d), last[0].registry, h, t, a, slot, node);
      ServingSame(last[0].registry, t, Track(t, d2, last[0]), node);
      NothingWritten(Apply(d2, last[0]), Track(t, d2, last[0]), node);
    }
    assert Serves(d2, t, last, node);
    assert ([r] + last)[1..] == last && ([q, r] + last)[1..] == [r] + last;
    assert Serves(d1, h, [r] + last, node);
    assert Serves(d0, h, [q, r] + last, node);
    assert p.writes == ws + [q, r] + last;
    if ws != [] {
      assert p.writes[1..] == [q, r] + last;
    }
  }

  lemma CommitServes(cfg: Config, m: Mem, d: Disk, h: History, b: Binding, expected: u64, receipt: Receipt, node: u64)
    requires SystemInv(cfg, m, d, h) && m.health == Ready && cfg.role.Receiver?
    requires Serving(Reg(d), h, node)
    ensures Serves(d, h, CommitPlan(cfg, m, d, b, expected, receipt).writes, node)
  {
    hide SystemInv, Acceptable, FrontHealth, AcceptPlan, Serving, Peek, Open;
    QueuedInRing(cfg, m, d, h);
    RegistryIsDurable(cfg, m, d, h);
    var p := CommitPlan(cfg, m, d, b, expected, receipt);
    NothingWritten(d, h, node);
    if p.writes != [] {
      var slot := Authorized(m, b).value;
      LatestIsTheNodes(cfg, m, d, h, node);
      forall s | 0 <= s < BINDING_CAPACITY && m.registry.entries[s].state.Active?
        && m.registry.entries[s].generation == m.registry.entries[slot].generation
        ensures s == slot
      {
        OneSlotEach(cfg, m, d, h, s, slot);
      }
      if Queued(m) == QUEUE_CAPACITY {
        var ws := [SaveHead(m.head + 1)];
        FrontIs(cfg, m, d, h);
        NothingWritten(Apply(d, ws[0]), h, node);
        assert ws[1..] == [];
        AcceptServes(d, h, Evicted(m, d.ring[m.head % QUEUE_CAPACITY].slot), ws, slot, b, receipt, node);
      } else {
        AcceptServes(d, h, m, [], slot, b, receipt, node);
      }
    }
  }

  /** Whatever held before: the node of the last sample is served once the sample's own slot is active. */
  lemma AcceptedIsServed(reg: Registry, h: History, t: History, a: Accepted, slot: nat)
    requires t.log == h.log + [a] && t.origin == h.origin && slot < BINDING_CAPACITY
    requires reg.entries[slot].state.Active? && reg.entries[slot].generation == a.generation
    ensures Serving(reg, t, a.node)
  {
    forall generation | Latest(t, a.node, generation) ensures ActiveGeneration(reg.entries, generation) {
      LatestAfter(h, t, a, a.node, generation);
      hide Latest;
    }
  }

  /** The node is served after every prefix of the writes that leaves more than `n` samples. */
  ghost predicate ServesPast(d: Disk, h: History, ws: seq<Write>, n: nat, node: u64)
    decreases ws
  {
    && (|h.log| > n ==> Serving(Reg(d), h, node))
    && (ws != [] ==> ServesPast(Apply(d, ws[0]), Track(h, d, ws[0]), ws[1..], n, node))
  }

  lemma {:induction false} ServesPastPrefix(d: Disk, h: History, ws: seq<Write>, n: nat, node: u64, k: nat)
    requires ServesPast(d, h, ws, n, node) && k <= |ws|
    ensures |TrackAll(h, d, ws[..k]).log| > n ==> Serving(Reg(ApplyAll(d, ws[..k])), TrackAll(h, d, ws[..k]), node)
    decreases ws
  {
    if k != 0 {
      ServesPastPrefix(Apply(d, ws[0]), Track(h, d, ws[0]), ws[1..], n, node, k - 1);
      assert ws[1..][..k - 1] == ws[..k][1..];
    }
  }

  /** A write that logs no sample, or one after which the node is served. */
  lemma OneWritePast(d: Disk, h: History, w: Write, ws: seq<Write>, n: nat, node: u64)
    requires |h.log| <= n || Serving(Reg(d), h, node)
    requires ServesPast(Apply(d, w), Track(h, d, w), ws, n, node)
    ensures ServesPast(d, h, [w] + ws, n, node)
    ensures TrackAll(h, d, [w] + ws) == TrackAll(Track(h, d, w), Apply(d, w), ws)
  {
    hide Serving;
    assert ([w] + ws)[1..] == ws;
  }

  /** The writes of an acceptance; the registry's keeps the slot as it is. */
  lemma AcceptShape(m: Mem, ws: seq<Write>, slot: nat, b: Binding, receipt: Receipt) returns (last: seq<Write>)
    requires slot < BINDING_CAPACITY
    ensures AcceptPlan(m, ws, slot, b, receipt).writes
         == ws + ([SaveQueue(ItemOf(m, slot, receipt))] + ([SaveReceipt(slot, RecordOf(m, slot, receipt))] + last))
    ensures last == [] || (last == [last[0]] && last[0].SaveRegistry?
                           && last[0].registry.entries[slot] == m.registry.entries[slot])
  {
    last := AcceptPlan(m, ws, slot, b, receipt).writes[|ws| + 2..];
  }

  /** The receipt and what follows it. */
  lemma ReceiptRestores(d: Disk, h: History, m: Mem, slot: nat, b: Binding, receipt: Receipt, last: seq<Write>)
    requires m.registry == Reg(d) && m.tail == |h.log| && slot < BINDING_CAPACITY
      && Matches(m.registry.entries[slot], b)
    requires m.tail % QUEUE_CAPACITY in d.ring && d.ring[m.tail % QUEUE_CAPACITY] == ItemOf(m, slot, receipt)
    requires last == [] || (last == [last[0]] && last[0].SaveRegistry?
                            && last[0].registry.entries[slot] == m.registry.entries[slot])
    ensures
      var ws := [SaveReceipt(slot, RecordOf(m, slot, receipt))] + last;
      ServesPast(d, h, ws, |h.log|, b.node) && |TrackAll(h, d, ws).log| == |h.log| + 1
  {
    var r := SaveReceipt(slot, RecordOf(m, slot, receipt));
    var a, t, d2 := AcceptedBy(m, slot, receipt), Track(h, d, r), Apply(d, r);
    assert Reg(d2) == Reg(d) && t.log == h.log + [a] && a.node == b.node;
    AcceptedIsServed(Reg(d), h, t, a, slot);
    hide Serving, RecordOf, AcceptedBy;
    if last != [] {
      var w := last[0];
      var v := Track(t, d2, w);
      AcceptedIsServed(w.registry, h, v, a, slot);
      assert ServesPast(Apply(d2, w), v, [], |h.log|, b.node);
      OneWritePast(d2, t, w, [], |h.log|, b.node);
      assert [w] + [] == last;
    }
    OneWritePast(d, h, r, last, |h.log|, b.node);
  }

  /** The writes of an acceptance make its node served as soon as the sample is in the log, which gains one. */
  lemma AcceptRestores(d: Disk, h: History, m: Mem, ws: seq<Write>, slot: nat, b: Binding, receipt: Receipt)
    requires ws == [] || (ws == [ws[0]] && ws[0].SaveHead?)
    requires m.registry == Reg(d) && m.tail == |h.log| && slot < BINDING_CAPACITY
      && Matches(m.registry.entries[slot], b)
    ensures
      var all := AcceptPlan(m, ws, slot, b, receipt).writes;
      ServesPast(d, h, all, |h.log|, b.node) && |TrackAll(h, d, all).log| == |h.log| + 1
  {
    var last := AcceptShape(m, ws, slot, b, receipt);
    var q, d0 := SaveQueue(ItemOf(m, slot, receipt)), if ws == [] then d else Apply(d, ws[0]);
    hide Serving, ServesPast, TrackAll, AcceptPlan, RecordOf, Matches;
    ReceiptRestores(Apply(d0, q), h, m, slot, b, receipt, last);
    var rest := [SaveReceipt(slot, RecordOf(m, slot, receipt))] + last;
    OneWritePast(d0, h, q, rest, |h.log|, b.node);
    if ws == [] {
      assert [] + ([q] + rest) == [q] + rest;
    } else {
      OneWritePast(d, h, ws[0], [q] + rest, |h.log|, b.node);
    }
  }

  lemma OkWrites(cfg: Config, m: Mem, d: Disk, b: Binding, expected: u64, receipt: Receipt)
    ensures
      var p := CommitPlan(cfg, m, d, b, expected, receipt);
      p.result == Ok ==> p.writes != []
  {
    hide Acceptable, FrontHealth, Superseding;
  }

  /** A commit, whatever was active before it. */
  lemma CommitRestores(cfg: Config, m: Mem, d: Disk, h: History, b: Binding, expected: u64, receipt: Receipt)
    requires SystemInv(cfg, m, d, h) && cfg.role.Receiver?
    ensures
      var p := CommitPlan(cfg, m, d, b, expected, receipt);
      ServesPast(d, h, p.writes, |h.log|, b.node) && (p.result == Ok ==> |TrackAll(h, d, p.writes).log| == |h.log| + 1)
  {
    hide SystemInv, Acceptable, FrontHealth, AcceptPlan, Serving, Peek, Open;
    var p := CommitPlan(cfg, m, d, b, expected, receipt);
    assert ServesPast(d, h, [], |h.log|, b.node);
    OkWrites(cfg, m, d, b, expected, receipt);
    if p.writes != [] {
      QueuedInRing(cfg, m, d, h);
      RegistryIsDurable(cfg, m, d, h);
      var slot := Authorized(m, b).value;
      if Queued(m) == QUEUE_CAPACITY {
        var ws := [SaveHead(m.head + 1)];
        FrontIs(cfg, m, d, h);
        var base := Evicted(m, d.ring[m.head % QUEUE_CAPACITY].slot);
        AcceptRestores(d, h, base, ws, slot, b, receipt);
      } else {
        AcceptRestores(d, h, m, [], slot, b, receipt);
      }
    }
  }

  // ------------------------------------------------------------------ every run

  lemma ForwardedServes(cfg: Config, m: Mem, d: Disk, h: History, n: u64, generation: u64, counter: u64, node: u64)
    requires Serving(Reg(d), h, node)
    ensures Serves(d, h, ForwardedPlan(cfg, m, d, n, generation, counter).writes, node)
  {
    hide Serving, Peek, PeekHealth, Find;
    NothingWritten(d, h, node);
    var ws := ForwardedPlan(cfg, m, d, n, generation, counter).writes;
    if ws != [] {
      assert ws[1..] == [];
      NothingWritten(Apply(d, ws[0]), h, node);
    }
  }

  /** A store that is not mounted writes nothing. */
  lemma UnmountedWrites(cfg: Config, m: Mem, d: Disk, op: Op)
    requires m.health != Ready
    ensures PlanOf(cfg, m, d, op).writes == []
  {
  }

  lemma OperationServes(cfg: Config, m: Mem, d: Disk, h: History, op: Op, node: u64)
    requires SystemInv(cfg, m, d, h) && cfg.role.Receiver? && Serving(Reg(d), h, node)
    requires !Disruptive(op, h, node)
    ensures Serves(d, h, PlanOf(cfg, m, d, op).writes, node)
  {
    hide SystemInv, CommitPlan, PreparePlan, AlongsidePlan, ActivatePlan, RevokePlan, ReservePlan, ForwardedPlan,
      Serving, Serves, Latest;
    NothingWritten(d, h, node);
    if m.health != Ready {
      UnmountedWrites(cfg, m, d, op);
    } else {
      match op
      case OpPrepare(x) => PrepareServes(cfg, m, d, h, x, node);
      case OpActivate(n, generation) => ActivateServes(cfg, m, d, h, n, generation, node);
      case OpAlongside(n, generation) => AlongsideServes(cfg, m, d, h, n, generation, node);
      case OpRevoke(n, generation) => RevokeServes(cfg, m, d, h, n, generation, node);
      case OpReserve(b) => ReserveServes(cfg, m, d, h, b, node);
      case OpCommit(b, expected, receipt) => CommitServes(cfg, m, d, h, b, expected, receipt, node);
      case OpForwarded(n, generation, counter) => ForwardedServes(cfg, m, d, h, n, generation, counter, node);
    }
  }

  lemma StepServes(cfg: Config, s: State, e: Event, t: State, node: u64)
    requires SystemInv(cfg, s.m, s.d, s.h) && Step(cfg, s, e, t) && cfg.role.Receiver?
    requires Serving(Reg(s.d), s.h, node)
    requires e.Remount? || !Disruptive(e.op, s.h, node)
    ensures Serving(Reg(t.d), t.h, node)
  {
    hide SystemInv, Serves, Serving, PlanOf, Disruptive, ApplyAll, TrackAll, Allowed, LoadDisk;
    if !e.Remount? {
      var ws := PlanOf(cfg, s.m, s.d, e.op).writes;
      OperationServes(cfg, s.m, s.d, s.h, e.op, node);
      if e.Cut? {
        ServesPrefix(s.d, s.h, ws, node, e.k);
      } else {
        ServesPrefix(s.d, s.h, ws, node, |ws|);
        assert ws[..|ws|] == ws;
      }
    }
  }

  /**
   * Over every run without a disruptive operation, however it is cut, the generation of the
   * node's latest accepted sample is Active in every durable state.
   */
  lemma {:induction false} NeverCutOff(cfg: Config, ss: seq<State>, es: seq<Event>, node: u64, n: nat)
    requires Run(cfg, ss, es) && n < |ss| && cfg.role.Receiver?
    requires SystemInv(cfg, ss[0].m, ss[0].d, ss[0].h) && Serving(Reg(ss[0].d), ss[0].h, node)
    requires forall i | 0 <= i < n :: es[i].Remount? || !Disruptive(es[i].op, ss[i].h, node)
    ensures Serving(Reg(ss[n].d), ss[n].h, node)
  {
    if n != 0 {
      NeverCutOff(cfg, ss, es, node, n - 1);
      EveryStateMounts(cfg, ss, es, n - 1);
      hide SystemInv, Step, Serving, Disruptive, LoadDisk, Recovered;
      assert Step(cfg, ss[n - 1], es[n - 1], ss[n]);
      StepServes(cfg, ss[n - 1], es[n - 1], ss[n], node);
    }
  }

  /** A commit that logged a sample, finished or cut. */
  ghost predicate Logs(s: State, e: Event, t: State, node: u64)
  {
    !e.Remount? && e.op.OpCommit? && e.op.b.node == node && |t.h.log| > |s.h.log|
  }

  /**
   * A commit makes its node served, whatever held before: always when it reports Ok, and when it
   * was cut after its sample was logged.
   */
  lemma CommitServesAgain(cfg: Config, s: State, e: Event, t: State)
    requires SystemInv(cfg, s.m, s.d, s.h) && cfg.role.Receiver? && Step(cfg, s, e, t)
    requires !e.Remount? && e.op.OpCommit?
    ensures |t.h.log| > |s.h.log| ==> Serving(Reg(t.d), t.h, e.op.b.node)
    ensures e.Finished? && PlanOf(cfg, s.m, s.d, e.op).result == Ok ==> Logs(s, e, t, e.op.b.node)
  {
    var b := e.op.b;
    var p := CommitPlan(cfg, s.m, s.d, b, e.op.expected, e.op.receipt);
    hide SystemInv, CommitPlan, ServesPast, Serving, ApplyAll, TrackAll, Allowed;
    CommitRestores(cfg, s.m, s.d, s.h, b, e.op.expected, e.op.receipt);
    ServesPastPrefix(s.d, s.h, p.writes, |s.h.log|, b.node, if e.Cut? then e.k else |p.writes|);
    assert p.writes[..|p.writes|] == p.writes;
  }

  /**
   * From every logged sample on, whatever happened before it: without a disruptive operation since,
   * the node is served.
   */
  lemma ServedSince(cfg: Config, ss: seq<State>, es: seq<Event>, node: u64, i: nat, n: nat)
    requires Run(cfg, ss, es) && i < n < |ss| && cfg.role.Receiver? && SystemInv(cfg, ss[0].m, ss[0].d, ss[0].h)
    requires Logs(ss[i], es[i], ss[i + 1], node)
    requires forall j | i < j < n :: es[j].Remount? || !Disruptive(es[j].op, ss[j].h, node)
    ensures Serving(Reg(ss[n].d), ss[n].h, node)
  {
    hide SystemInv, Step, Serving, Disruptive, LoadDisk, Recovered;
    EveryStateMounts(cfg, ss, es, i);
    EveryStateMounts(cfg, ss, es, i + 1);
    assert Step(cfg, ss[i], es[i], ss[i + 1]);
    CommitServesAgain(cfg, ss[i], es[i], ss[i + 1]);
    var rest, events := ss[i + 1..], es[i + 1..];
    forall j | 0 <= j < |events| ensures Step(cfg, rest[j], events[j], rest[j + 1]) {
      assert Step(cfg, ss[i + 1 + j], es[i + 1 + j], ss[i + 2 + j]);
    }
    NeverCutOff(cfg, rest, events, node, n - i - 1);
  }

  lemma {:induction false} NoneActive(es: Entries, node: u64, n: nat)
    requires n <= BINDING_CAPACITY && forall i | 0 <= i < n :: !(es[i].state.Active? && es[i].node == node)
    ensures ActiveOf(es, node, n) == 0
  {
    if n != 0 {
      NoneActive(es, node, n - 1);
    }
  }

  /** Over every run a node never has more active generations than its role allows. */
  lemma NeverMoreThanTwo(cfg: Config, ss: seq<State>, es: seq<Event>, node: u64, n: nat)
    requires Run(cfg, ss, es) && n < |ss| && SystemInv(cfg, ss[0].m, ss[0].d, ss[0].h)
    ensures ActiveOf(Reg(ss[n].d).entries, node, BINDING_CAPACITY) <= ActiveLimit(cfg.role) <= 2
  {
    EveryStateMounts(cfg, ss, es, n);
    var slots := Reg(ss[n].d).entries;
    if forall i | 0 <= i < BINDING_CAPACITY :: !(slots[i].state.Active? && slots[i].node == node) {
      NoneActive(slots, node, BINDING_CAPACITY);
    }
  }
}
