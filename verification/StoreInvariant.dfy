// The invariant every durable state of the store satisfies, and what a mount finds in it.
module StoreInvariant {
  import opened Protocol
  import opened Codec
  import opened Records
  import opened Store

  /** One accepted sample, as it entered the queue. */
  datatype Accepted = Accepted(
    node: u64, generation: u64, key: Key, network: u64, counter: u64, frame: Frame, link: Link, ackPower: i8)

  /**
   * Where the records came from: how many queued samples a migration brought, the last sample
   * of each credential that had one, and the generations that were active then.
   */
  datatype Origin = Origin(base: nat, carried: set<Accepted>, serving: set<u64>)

  const NEW_DEVICE := Origin(0, {}, {})

  /**
   * History that is not stored: every sample accepted into these records (its index is its
   * queue sequence), where the records came from, and the credentials that left the registry.
   */
  datatype History = History(log: seq<Accepted>, origin: Origin, goneGenerations: set<u64>, goneKeys: set<Key>)

  const NO_HISTORY := History([], NEW_DEVICE, {}, {})

  function Generations(es: Entries): set<u64>
  {
    set i | 0 <= i < BINDING_CAPACITY && !es[i].state.Empty? :: es[i].generation
  }

  function Keys(es: Entries): set<Key>
  {
    set i | 0 <= i < BINDING_CAPACITY && !es[i].state.Empty? :: es[i].key
  }

  /** How a durable write extends the history: the receipt write is the commit point. */
  function Track(h: History, d: Disk, w: Write): (t: History)
    ensures t.origin == h.origin
  {
    match w
    case SaveRegistry(r) =>
      var was := Reg(d).entries;
      h.(goneGenerations := h.goneGenerations + (Generations(was) - Generations(r.entries)),
         goneKeys := h.goneKeys + (Keys(was) - Keys(r.entries)))
    case SaveReceipt(slot, r) =>
      if slot < BINDING_CAPACITY && r.through >= 1 && (r.through - 1) % QUEUE_CAPACITY in d.ring then
        var e := Reg(d).entries[slot];
        h.(log := h.log + [Accepted(e.node, r.generation, e.key, Reg(d).network, r.counter, r.last,
                                    d.ring[(r.through - 1) % QUEUE_CAPACITY].link, r.ackPower)])
      else h
    case _ => h
  }

  function TrackAll(h: History, d: Disk, ws: seq<Write>): (t: History)
    ensures t.origin == h.origin
    decreases ws
  {
    if ws == [] then h else TrackAll(Track(h, d, ws[0]), Apply(d, ws[0]), ws[1..])
  }

  // ------------------------------------------------------------------ the invariant

  /** The fingerprints of the keys in use are distinct. */
  ghost predicate MarksApart(c: Crypto, es: Entries)
  {
    forall i, j | 0 <= i < BINDING_CAPACITY && 0 <= j < BINDING_CAPACITY && i != j ::
      !es[i].state.Empty? && !es[j].state.Empty? ==> c.fingerprint(es[i].key) != c.fingerprint(es[j].key)
  }

  ghost predicate NotGone(es: Entries, h: History)
  {
    forall i | 0 <= i < BINDING_CAPACITY ::
      !es[i].state.Empty? ==> es[i].generation !in h.goneGenerations && es[i].key !in h.goneKeys
  }

  ghost predicate CredentialInv(cfg: Config, reg: Registry, retired: RetiredList, h: History)
  {
    && (reg == NO_REGISTRY || RegistryFits(cfg.role, cfg.device, reg))
    && RetiredFits(retired)
    && Validated(cfg, reg.entries, retired)
    && MarksApart(cfg.c, reg.entries)
    && NotGone(reg.entries, h)
  }

  ghost predicate Opens(c: Crypto, a: Accepted)
  {
    && (var m := Open(c, Binding(a.network, a.node, a.key, true), a.frame);
        m.Done? && m.value.kind.DataKind? && m.value.counter == a.counter)
    && (FrameVersion(a.frame) == WIRE_V2 || a.ackPower == KEEP_POWER)
    && a.generation != 0
  }

  /**
   * A sample accepted here has a greater counter than any before it of its generation; a
   * generation is one key, node and network.
   */
  ghost predicate LogInv(c: Crypto, log: seq<Accepted>, base: nat)
  {
    && (forall i | 0 <= i < |log| :: Opens(c, log[i]))
    && (forall i, j | 0 <= i < j < |log| && base <= j ::
          log[i].generation == log[j].generation ==> log[i].counter < log[j].counter)
    && (forall i, j | 0 <= i < |log| && 0 <= j < |log| :: SameOwner(log[i], log[j]))
  }

  /** The same of the carried samples, of which there is one a credential. */
  ghost predicate CarriedInv(c: Crypto, h: History)
  {
    && h.origin.base <= |h.log|
    && (forall a | a in h.origin.carried :: Opens(c, a))
    && (forall a, b | a in h.origin.carried && b in h.origin.carried :: SameOwner(a, b) && (a.key == b.key ==> a == b))
    && (forall a, i | a in h.origin.carried && 0 <= i < |h.log| :: SameOwner(a, h.log[i]) && SameOwner(h.log[i], a))
    && (forall a, i | a in h.origin.carried && h.origin.base <= i < |h.log| ::
          a.generation == h.log[i].generation ==> a.counter < h.log[i].counter)
    && (forall a, b | a in h.origin.carried && b in h.origin.carried ::
          a.node == b.node && a.generation in h.origin.serving && b.generation in h.origin.serving ==> a == b)
  }

  ghost predicate ActiveGeneration(es: Entries, generation: u64)
  {
    exists i :: 0 <= i < BINDING_CAPACITY && es[i].state.Active? && es[i].generation == generation
  }

  /** A carried credential that was not active then never is again. */
  ghost predicate Resting(es: Entries, h: History)
  {
    forall a | a in h.origin.carried && a.generation !in h.origin.serving :: !ActiveGeneration(es, a.generation)
  }

  ghost predicate SameOwner(a: Accepted, b: Accepted)
  {
    && (a.generation == b.generation <==> a.key == b.key)
    && (a.generation == b.generation ==> a.node == b.node && a.network == b.network)
  }

  ghost predicate HasGeneration(es: Entries, generation: u64)
  {
    exists i :: 0 <= i < BINDING_CAPACITY && !es[i].state.Empty? && es[i].generation == generation
  }

  ghost predicate HasKey(es: Entries, key: Key)
  {
    exists i :: 0 <= i < BINDING_CAPACITY && !es[i].state.Empty? && es[i].key == key
  }

  /** An accepted sample's credential is enrolled or gone; while enrolled, its slot has a live receipt. */
  ghost predicate Owned(reg: Registry, receipts: map<nat, ReceiptRecord>, h: History, a: Accepted)
  {
    && (a.generation in h.goneGenerations || HasGeneration(reg.entries, a.generation))
    && (a.key in h.goneKeys || HasKey(reg.entries, a.key))
    && (forall s | 0 <= s < BINDING_CAPACITY && !reg.entries[s].state.Empty? ::
          (reg.entries[s].generation == a.generation || reg.entries[s].key == a.key) ==>
            OwnedBy(reg, receipts, s, a))
  }

  ghost predicate OwnedBy(reg: Registry, receipts: map<nat, ReceiptRecord>, s: nat, a: Accepted)
    requires s < BINDING_CAPACITY
  {
    var e := reg.entries[s];
    && e.generation == a.generation && e.key == a.key && e.node == a.node && reg.network == a.network
    && IsLive(reg, receipts, s)
  }

  predicate SameSample(r: ReceiptRecord, a: Accepted)
  {
    a.generation == r.generation && a.counter == r.counter && a.frame == r.last && a.ackPower == r.ackPower
  }

  /** `through` is one past the last queue position of the receipt's generation. */
  ghost predicate Positioned(r: ReceiptRecord, log: seq<Accepted>)
  {
    && r.through <= |log|
    && (r.through >= 1 ==> log[r.through - 1].generation == r.generation)
    && (forall j | r.through <= j < |log| :: log[j].generation != r.generation)
  }

  /** No sample of the receipt's generation is newer than it. */
  ghost predicate Newest(r: ReceiptRecord, h: History)
  {
    && (forall j | 0 <= j < |h.log| :: h.log[j].generation == r.generation ==> h.log[j].counter <= r.counter)
    && (forall a | a in h.origin.carried :: a.generation == r.generation ==> a.counter <= r.counter)
  }

  /** A receipt is of the sample at its position, accepted here, or of a carried one. */
  ghost predicate Told(r: ReceiptRecord, h: History)
  {
    || (h.origin.base < r.through <= |h.log| && SameSample(r, h.log[r.through - 1]))
    || (r.through <= h.origin.base && exists a :: a in h.origin.carried && SameSample(r, a))
  }

  ghost predicate Tells(r: ReceiptRecord, h: History) { Positioned(r, h.log) && Newest(r, h) && Told(r, h) }

  ghost predicate ReceiptInv(reg: Registry, receipts: map<nat, ReceiptRecord>, h: History, s: nat)
    requires s < BINDING_CAPACITY
  {
    s in receipts ==>
      && ReceiptFits(receipts[s])
      && (receipts[s].generation in h.goneGenerations || IsLive(reg, receipts, s))
      && (IsLive(reg, receipts, s) ==> Tells(receipts[s], h) && !reg.entries[s].state.Prepared?)
  }

  /** The ring record of a queued sequence is the accepted sample, under its enrolled credential. */
  ghost predicate RingHolds(reg: Registry, ring: map<nat, QueueRecord>, s: nat, a: Accepted)
  {
    s % QUEUE_CAPACITY in ring &&
    var r := ring[s % QUEUE_CAPACITY];
    && QueueFits(r) && r.sequence == s && r.frame == a.frame && r.link == a.link
    && (var e := reg.entries[r.slot];
        && (e.state.Active? || e.state.Revoked?)
        && e.generation == r.generation && r.generation == a.generation)
  }

  ghost predicate RingInv(reg: Registry, ring: map<nat, QueueRecord>, head: nat, log: seq<Accepted>)
  {
    && head <= |log| <= head + QUEUE_CAPACITY
    && (forall s | head <= s < |log| :: RingHolds(reg, ring, s, log[s]))
  }

  ghost predicate QueueInv(c: Crypto, reg: Registry, head: nat, receipts: map<nat, ReceiptRecord>,
                           ring: map<nat, QueueRecord>, h: History)
  {
    && LogInv(c, h.log, h.origin.base) && CarriedInv(c, h) && Resting(reg.entries, h)
    && |h.log| <= UINT64_MAX
    && (forall i | 0 <= i < |h.log| :: Owned(reg, receipts, h, h.log[i]))
    && (forall a | a in h.origin.carried :: Owned(reg, receipts, h, a))
    && (forall s | 0 <= s < BINDING_CAPACITY :: ReceiptInv(reg, receipts, h, s))
    && RingInv(reg, ring, head, h.log)
  }

  /** A device that never stored anything. */
  ghost predicate Blank(d: Disk) { d == Disk(None, None, None, map[], map[], None) }

  ghost predicate Inv(cfg: Config, d: Disk, h: History)
  {
    && cfg.device != 0
    && (d.registry.None? ==> Blank(d))
    && (d.registry.Some? ==> RegistryFits(cfg.role, cfg.device, Reg(d)))
    && CredentialInv(cfg, Reg(d), Ret(d), h)
    && (cfg.role.Receiver? ==> QueueInv(cfg.c, Reg(d), Head(d), d.receipts, d.ring, h))
    && (cfg.role.Transmitter? ==> h.log == [] && h.origin == NEW_DEVICE)
  }

  // ------------------------------------------------------------------ what a mount finds

  /** A sample accepted here, or carried by the migration. */
  ghost predicate Known(h: History, a: Accepted)
  {
    a in h.origin.carried || exists i :: h.origin.base <= i < |h.log| && h.log[i] == a
  }

  /** The sample a live receipt is of, which belongs to the slot's credential. */
  lemma ToldSample(c: Crypto, reg: Registry, head: nat, receipts: map<nat, ReceiptRecord>, ring: map<nat, QueueRecord>,
                   h: History, s: nat) returns (a: Accepted)
    requires QueueInv(c, reg, head, receipts, ring, h) && s < BINDING_CAPACITY && IsLive(reg, receipts, s)
    ensures SameSample(receipts[s], a) && Opens(c, a) && Known(h, a) && OwnedBy(reg, receipts, s, a)
    ensures receipts[s].through > h.origin.base ==>
      receipts[s].through <= |h.log| && a == h.log[receipts[s].through - 1]
  {
    var r := receipts[s];
    assert ReceiptInv(reg, receipts, h, s);
    if h.origin.base < r.through {
      a := h.log[r.through - 1];
    } else {
      a :| a in h.origin.carried && SameSample(r, a);
    }
    assert Owned(reg, receipts, h, a);
    hide Opens, RingInv;
    assert OwnedBy(reg, receipts, s, a);
  }

  lemma LiveReceiptOpens(c: Crypto, reg: Registry, head: nat, receipts: map<nat, ReceiptRecord>,
                         ring: map<nat, QueueRecord>, h: History, s: nat)
    requires QueueInv(c, reg, head, receipts, ring, h) && s < BINDING_CAPACITY && IsLive(reg, receipts, s)
    ensures ReceiptAuthentic(c, reg.entries[s], reg.network, receipts[s])
  {
    assert ReceiptInv(reg, receipts, h, s);
    var a := ToldSample(c, reg, head, receipts, ring, h, s);
    hide QueueInv;
    OpenedFields(c, BindingOf(reg.entries[s], reg.network), a.frame);
  }

  lemma {:induction false} ReceiptsReady(c: Crypto, reg: Registry, head: nat, receipts: map<nat, ReceiptRecord>,
                                         ring: map<nat, QueueRecord>, h: History, n: nat)
    requires QueueInv(c, reg, head, receipts, ring, h) && n <= BINDING_CAPACITY
    ensures ReceiptsHealth(c, reg, receipts, n) == Ready
  {
    if n != 0 {
      ReceiptsReady(c, reg, head, receipts, ring, h, n - 1);
      assert ReceiptInv(reg, receipts, h, n - 1);
      hide QueueInv, ReceiptAuthentic;
      if IsLive(reg, receipts, n - 1) {
        LiveReceiptOpens(c, reg, head, receipts, ring, h, n - 1);
      }
    }
  }

  lemma {:induction false} TailBounds(head: nat, live: Receipts, bound: nat, n: nat)
    requires n <= BINDING_CAPACITY && head <= bound
    requires forall i | 0 <= i < n :: live[i].through <= bound
    ensures TailOf(head, live, n) <= bound
    ensures forall i | 0 <= i < n :: live[i].through <= TailOf(head, live, n)
  {
    if n != 0 {
      TailBounds(head, live, bound, n - 1);
    }
  }

  /** The slot whose sample was accepted last, while it is queued, still has the receipt saying so. */
  lemma LastQueuedReceipt(c: Crypto, reg: Registry, head: nat, receipts: map<nat, ReceiptRecord>,
                          ring: map<nat, QueueRecord>, h: History, s: nat) returns (slot: nat)
    requires QueueInv(c, reg, head, receipts, ring, h) && head <= s < |h.log|
    ensures slot < BINDING_CAPACITY && s % QUEUE_CAPACITY in ring && slot == ring[s % QUEUE_CAPACITY].slot
    ensures IsLive(reg, receipts, slot) && s < receipts[slot].through
    ensures OwnedBy(reg, receipts, slot, h.log[s])
    ensures h.log[s].counter <= receipts[slot].counter
  {
    assert RingHolds(reg, ring, s, h.log[s]);
    slot := ring[s % QUEUE_CAPACITY].slot;
    assert Owned(reg, receipts, h, h.log[s]);
    assert OwnedBy(reg, receipts, slot, h.log[s]);
    assert ReceiptInv(reg, receipts, h, slot);
    hide Opens, Told, RingInv;
    assert Positioned(receipts[slot], h.log) && Newest(receipts[slot], h);
  }

  /** Recovering the tail from the receipts finds the true one. */
  lemma TailRecovered(c: Crypto, reg: Registry, head: nat, receipts: map<nat, ReceiptRecord>,
                      ring: map<nat, QueueRecord>, h: History)
    requires QueueInv(c, reg, head, receipts, ring, h)
    ensures TailOf(head, Live(reg, receipts), BINDING_CAPACITY) == |h.log|
  {
    var live := Live(reg, receipts);
    forall i | 0 <= i < BINDING_CAPACITY ensures live[i].through <= |h.log| {
      assert ReceiptInv(reg, receipts, h, i);
    }
    TailBounds(head, live, |h.log|, BINDING_CAPACITY);
    TailAboveHead(head, live, BINDING_CAPACITY);
    if head < |h.log| {
      var slot := LastQueuedReceipt(c, reg, head, receipts, ring, h, |h.log| - 1);
      assert live[slot].through >= |h.log|;
    }
  }

  lemma ItemReady(c: Crypto, reg: Registry, head: nat, receipts: map<nat, ReceiptRecord>,
                  ring: map<nat, QueueRecord>, h: History, s: nat)
    requires QueueInv(c, reg, head, receipts, ring, h) && head <= s < |h.log|
    ensures ItemHealth(c, reg, Live(reg, receipts), ring, s) == Ready
  {
    var slot := LastQueuedReceipt(c, reg, head, receipts, ring, h, s);
    assert RingHolds(reg, ring, s, h.log[s]);
    assert Opens(c, h.log[s]);
  }

  lemma {:induction false} QueueReady(c: Crypto, reg: Registry, live: Receipts, ring: map<nat, QueueRecord>, lo: nat,
                                      hi: nat)
    requires lo <= hi && forall s | lo <= s < hi :: ItemHealth(c, reg, live, ring, s) == Ready
    ensures QueueHealth(c, reg, live, ring, lo, hi) == Ready
  {
    if lo < hi {
      QueueReady(c, reg, live, ring, lo, hi - 1);
    }
  }

  /** The memory state a mount of `d` builds. */
  function Recovered(cfg: Config, d: Disk, h: History): Mem
    requires cfg.role.Receiver? ==> Head(d) <= |h.log|
  {
    if cfg.role.Receiver? then
      Mem(Ready, Reg(d), Ret(d), Live(Reg(d), d.receipts), CountsOf(d.ring, Head(d), |h.log|), Head(d), |h.log|, 0)
    else Mem(Ready, Reg(d), Ret(d), NoReceipts(), NoCounts(), 0, 0, 0)
  }

  /** Every durable state that satisfies the invariant mounts, with the true queue. */
  lemma Mounts(cfg: Config, d: Disk, h: History)
    requires Inv(cfg, d, h)
    ensures LoadDisk(cfg, d) == Recovered(cfg, d, h)
  {
    if cfg.role.Receiver? {
      ReceiptsReady(cfg.c, Reg(d), Head(d), d.receipts, d.ring, h, BINDING_CAPACITY);
      TailRecovered(cfg.c, Reg(d), Head(d), d.receipts, d.ring, h);
      forall s | Head(d) <= s < |h.log| ensures ItemHealth(cfg.c, Reg(d), Live(Reg(d), d.receipts), d.ring, s)
        == Ready {
        ItemReady(cfg.c, Reg(d), Head(d), d.receipts, d.ring, h, s);
      }
      QueueReady(cfg.c, Reg(d), Live(Reg(d), d.receipts), d.ring, Head(d), |h.log|);
    }
  }
}
