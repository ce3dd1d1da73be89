// Where the store depends on its callers: exactly when an accepted commit leaves a store that
// mounts, and why a credential must not return after the retired list has forgotten it.
module StoreLimits {
  import opened Protocol
  import opened Records
  import opened Store
  import opened StoreInvariant
  import opened StoreSafety
  import opened StoreOps

  lemma {:induction false} BadSlotStopsMount(c: Crypto, reg: Registry, receipts: map<nat, ReceiptRecord>, slot: nat,
                                             n: nat)
    requires slot < n <= BINDING_CAPACITY && SlotHealth(c, reg, receipts, slot) != Ready
    ensures ReceiptsHealth(c, reg, receipts, n) != Ready
  {
    if slot < n - 1 {
      BadSlotStopsMount(c, reg, receipts, slot, n - 1);
    }
  }

  /** A healthy store's memory is its disk. */
  lemma ReadyIsDisk(cfg: Config, m: Mem, d: Disk, h: History)
    requires SystemInv(cfg, m, d, h) && m.health == Ready
    ensures m.registry == Reg(d) && m.retired == Ret(d) && Inv(cfg, d, h)
    ensures forall i | 0 <= i < BINDING_CAPACITY && !m.registry.entries[i].state.Empty? :: d.registry.Some?
  {
    hide Inv;
  }

  /** The receipt and the slot states on disk after a commit reported Ok. */
  lemma CommittedOnDisk(cfg: Config, m: Mem, d: Disk, h: History, b: Binding, expected: u64, receipt: Receipt)
    requires SystemInv(cfg, m, d, h) && m.health == Ready
    requires CommitPlan(cfg, m, d, b, expected, receipt).result == Ok
    ensures
      var d1 := ApplyAll(d, CommitPlan(cfg, m, d, b, expected, receipt).writes);
      var found := Authorized(m, b);
      && cfg.role.Receiver? && found.Some? && d1.registry.Some?
      && found.value in d1.receipts && d1.receipts[found.value].last == receipt.last
      && d1.receipts[found.value].ackPower == receipt.ackPower
      && IsLive(Reg(d1), d1.receipts, found.value)
  {
    hide SystemInv, Inv, Acceptable, FindActive, AcceptPlan, Live, CountsOf;
    ReadyIsDisk(cfg, m, d, h);
    var slot := Authorized(m, b).value;
    var full := Queued(m) == QUEUE_CAPACITY;
    var base := if full then Evicted(m, d.ring[m.head % QUEUE_CAPACITY].slot) else m;
    var ws := if full then [SaveHead(m.head + 1)] else [];
    AcceptedOnDisk(base, d, ws, slot, b, receipt);
  }

  lemma AcceptedOnDisk(m: Mem, d: Disk, ws: seq<Write>, slot: nat, b: Binding, receipt: Receipt)
    requires ws == [] || (|ws| == 1 && ws[0].SaveHead?)
    requires m.registry == Reg(d) && d.registry.Some? && slot < BINDING_CAPACITY && Matches(m.registry.entries[slot], b)
    ensures
      var d1 := ApplyAll(d, AcceptPlan(m, ws, slot, b, receipt).writes);
      && d1.registry.Some? && slot in d1.receipts
      && d1.receipts[slot] == RecordOf(m, slot, receipt) && IsLive(Reg(d1), d1.receipts, slot)
  {
    var p := AcceptPlan(m, ws, slot, b, receipt);
    var q, r := SaveQueue(ItemOf(m, slot, receipt)), SaveReceipt(slot, RecordOf(m, slot, receipt));
    var last := p.writes[|ws| + 2..];
    var d0 := ApplyAll(d, ws);
    assert p.writes == ws + ([q, r] + last);
    ApplyConcat(d, ws, [q, r] + last);
    ApplyConcat(d0, [q, r], last);
    ApplyTwo(d0, q, r);
    var d2 := Apply(Apply(d0, q), r);
    if ws != [] {
      ApplyOne(d, ws[0]);
      assert ws == [ws[0]];
    }
    assert Reg(d2) == Reg(d0) == Reg(d);
    assert slot in d2.receipts && d2.receipts[slot] == RecordOf(m, slot, receipt);
    if last != [] {
      ApplyOne(d2, last[0]);
      assert last == [last[0]] && last[0].SaveRegistry?;
    }
  }

  lemma ApplyOne(d: Disk, w: Write)
    ensures ApplyAll(d, [w]) == Apply(d, w)
  {
    assert [w][1..] == [];
  }

  lemma ApplyTwo(d: Disk, v: Write, w: Write)
    ensures ApplyAll(d, [v, w]) == Apply(Apply(d, v), w)
  {
    assert [v, w][1..] == [w];
    ApplyOne(Apply(d, v), w);
  }

  lemma {:induction false} ApplyConcat(d: Disk, a: seq<Write>, b: seq<Write>)
    ensures ApplyAll(d, a + b) == ApplyAll(ApplyAll(d, a), b)
    decreases a
  {
    if a == [] {
      assert a + b == b;
    } else {
      assert (a + b)[1..] == a[1..] + b;
      ApplyConcat(Apply(d, a[0]), a[1..], b);
    }
  }

  /**
   * `commit` does not compare the power command with the frame's version, and a mount does:
   * a store whose commit reported Ok mounts again exactly when only a v2 frame came with a
   * power command. The delivery code never commits anything else.
   */
  lemma CommitMountsIff(cfg: Config, m: Mem, d: Disk, h: History, b: Binding, expected: u64, receipt: Receipt)
    requires SystemInv(cfg, m, d, h) && m.health == Ready && |h.log| < UINT64_MAX
    requires CommitPlan(cfg, m, d, b, expected, receipt).result == Ok
    ensures LoadDisk(cfg, ApplyAll(d, CommitPlan(cfg, m, d, b, expected, receipt).writes)).health == Ready
       <==> (FrameVersion(receipt.last) == WIRE_V2 || receipt.ackPower == KEEP_POWER)
  {
    var ws := CommitPlan(cfg, m, d, b, expected, receipt).writes;
    hide SystemInv, Inv, CommitPlan;
    if FrameVersion(receipt.last) == WIRE_V2 || receipt.ackPower == KEEP_POWER {
      CommitSound(cfg, m, d, h, b, expected, receipt);
      SafeEnd(cfg, d, h, ws);
      Mounts(cfg, ApplyAll(d, ws), TrackAll(h, d, ws));
    } else {
      CommittedOnDisk(cfg, m, d, h, b, expected, receipt);
      var d1 := ApplyAll(d, ws);
      var slot := Authorized(m, b).value;
      assert SlotHealth(cfg.c, Reg(d1), d1.receipts, slot) != Ready;
      BadSlotStopsMount(cfg.c, Reg(d1), d1.receipts, slot, BINDING_CAPACITY);
    }
  }

  // ------------------------------------------------------------------ preparing a credential

  /** Enrolling a generation in the slot whose stale receipt still carries it leaves a store that does not mount. */
  lemma StaleReceiptStopsMount(cfg: Config, d: Disk, revision: u64, slot: nat, x: Credential)
    requires cfg.role.Receiver? && slot < BINDING_CAPACITY && slot in d.receipts
    requires d.receipts[slot].generation == x.generation
    ensures LoadDisk(cfg, Apply(d, SaveRegistry(Placed(Reg(d), revision, slot, x)))).health != Ready
  {
    var d1 := Apply(d, SaveRegistry(Placed(Reg(d), revision, slot, x)));
    assert Reg(d1).entries[slot].state.Prepared?;
    assert SlotHealth(cfg.c, Reg(d1), d1.receipts, slot) != Ready;
    BadSlotStopsMount(cfg.c, Reg(d1), d1.receipts, slot, BINDING_CAPACITY);
  }

  lemma {:induction false} EverySlotReady(c: Crypto, reg: Registry, receipts: map<nat, ReceiptRecord>, n: nat)
    requires n <= BINDING_CAPACITY && forall i | 0 <= i < n :: SlotHealth(c, reg, receipts, i) == Ready
    ensures ReceiptsHealth(c, reg, receipts, n) == Ready
  {
    if n != 0 {
      EverySlotReady(c, reg, receipts, n - 1);
    }
  }

  /** A slot's receipt reads as before the new credential was placed, unless it is the slot's own. */
  lemma PlacedSlotReady(cfg: Config, d: Disk, h: History, revision: u64, slot: nat, x: Credential, i: nat)
    requires Inv(cfg, d, h) && cfg.role.Receiver? && slot < BINDING_CAPACITY && i < BINDING_CAPACITY
    requires Fitting(cfg, Reg(d), Ret(d), slot, x)
      && !(slot in d.receipts && d.receipts[slot].generation == x.generation)
    ensures SlotHealth(cfg.c, Placed(Reg(d), revision, slot, x), d.receipts, i) == Ready
  {
    var reg := Reg(d);
    assert ReceiptInv(reg, d.receipts, h, i);
    if reg.network == 0 {
      NoNetworkNoEntries(cfg, reg);
    }
    if i != slot && IsLive(reg, d.receipts, i) {
      LiveReceiptOpens(cfg.c, reg, Head(d), d.receipts, d.ring, h, i);
    }
    hide Inv, Tells, ReceiptAuthentic, WellFormed, Clashes, IsRetired;
  }

  /** A queued sample reads as before: it is not of the slot. */
  lemma PlacedItemReady(cfg: Config, d: Disk, h: History, revision: u64, slot: nat, x: Credential, s: nat)
    requires Inv(cfg, d, h) && cfg.role.Receiver? && slot < BINDING_CAPACITY
    requires Fitting(cfg, Reg(d), Ret(d), slot, x) && NothingQueued(d.ring, Head(d), |h.log|, slot)
    requires Head(d) <= s < |h.log|
    ensures ItemHealth(cfg.c, Placed(Reg(d), revision, slot, x), Live(Placed(Reg(d), revision, slot, x), d.receipts),
                       d.ring, s) == Ready
  {
    var reg := Reg(d);
    ItemReady(cfg.c, reg, Head(d), d.receipts, d.ring, h, s);
    if reg.network == 0 {
      NoNetworkNoEntries(cfg, reg);
    }
    hide Inv, WellFormed, Clashes, IsRetired, FrameCounter;
    assert s % QUEUE_CAPACITY in d.ring && d.ring[s % QUEUE_CAPACITY].slot != slot;
  }

  /** The tail is recovered all the same: the slot had no queued sample. */
  lemma PlacedTail(cfg: Config, d: Disk, h: History, revision: u64, slot: nat, x: Credential)
    requires Inv(cfg, d, h) && cfg.role.Receiver? && slot < BINDING_CAPACITY
    requires Fitting(cfg, Reg(d), Ret(d), slot, x) && NothingQueued(d.ring, Head(d), |h.log|, slot)
    requires !(slot in d.receipts && d.receipts[slot].generation == x.generation)
    ensures TailOf(Head(d), Live(Placed(Reg(d), revision, slot, x), d.receipts), BINDING_CAPACITY) == |h.log|
  {
    var reg, head := Reg(d), Head(d);
    var live := Live(Placed(reg, revision, slot, x), d.receipts);
    forall i | 0 <= i < BINDING_CAPACITY ensures live[i].through <= |h.log| {
      assert ReceiptInv(reg, d.receipts, h, i);
    }
    assert head <= |h.log|;
    var last := -1;
    if head < |h.log| {
      last := LastQueuedReceipt(cfg.c, reg, head, d.receipts, d.ring, h, |h.log| - 1);
    }
    hide Inv, Fitting, TailOf;
    assert last >= 0 ==> live[last].through >= |h.log|;
    TailBounds(head, live, |h.log|, BINDING_CAPACITY);
    TailAboveHead(head, live, BINDING_CAPACITY);
  }

  lemma PlacedLoads(cfg: Config, d: Disk, h: History, revision: u64, slot: nat, x: Credential)
    requires Inv(cfg, d, h) && slot < BINDING_CAPACITY && revision != 0 && Fitting(cfg, Reg(d), Ret(d), slot, x)
    requires cfg.role.Receiver? ==>
      NothingQueued(d.ring, Head(d), |h.log|, slot)
        && !(slot in d.receipts && d.receipts[slot].generation == x.generation)
    ensures LoadDisk(cfg, Apply(d, SaveRegistry(Placed(Reg(d), revision, slot, x)))).health == Ready
  {
    var r := Placed(Reg(d), revision, slot, x);
    PlacedFits(cfg, Reg(d), Ret(d), revision, slot, x);
    PlacedValidated(cfg, Reg(d), Ret(d), revision, slot, x);
    if cfg.role.Receiver? {
      assert Head(d) <= |h.log| <= Head(d) + QUEUE_CAPACITY && |h.log| <= UINT64_MAX;
      var live := Live(r, d.receipts);
      PlacedTail(cfg, d, h, revision, slot, x);
      hide Inv, Fitting, NothingQueued, Placed, SlotHealth, ItemHealth, RegistryFits, Validated, TailOf;
      forall i | 0 <= i < BINDING_CAPACITY ensures SlotHealth(cfg.c, r, d.receipts, i) == Ready {
        PlacedSlotReady(cfg, d, h, revision, slot, x, i);
      }
      EverySlotReady(cfg.c, r, d.receipts, BINDING_CAPACITY);
      forall s | Head(d) <= s < |h.log| ensures ItemHealth(cfg.c, r, live, d.ring, s) == Ready {
        PlacedItemReady(cfg, d, h, revision, slot, x, s);
      }
      QueueReady(cfg.c, r, live, d.ring, Head(d), |h.log|);
    }
  }

  /** The slot `prepare` uses: the first empty one, else the first it can reclaim. */
  function ChosenSlot(m: Mem): (r: Option<nat>)
    ensures r.Some? ==> r.value < BINDING_CAPACITY
  {
    var empty := FirstEmpty(m.registry.entries, BINDING_CAPACITY);
    if empty.Some? then empty else Reclaimable(m, BINDING_CAPACITY)
  }

  /** The retired list once the credential of the slot has left the registry. */
  function Leaving(c: Crypto, m: Mem, slot: nat): RetiredList
    requires slot < BINDING_CAPACITY
  {
    var e := m.registry.entries[slot];
    if e.state.Empty? then m.retired else RetireOnce(c, m.retired, e)
  }

  /**
   * What a new enrollment must not meet: a stale receipt in its slot that carries its
   * generation, and a mark the credential leaving the slot shares with it.
   */
  ghost predicate Welcome(cfg: Config, m: Mem, d: Disk, x: Credential, slot: nat)
    requires slot < BINDING_CAPACITY
  {
    && (cfg.role.Receiver? ==> !(slot in d.receipts && d.receipts[slot].generation == x.generation))
    && !IsRetired(Leaving(cfg.c, m, slot), x.generation, cfg.c.fingerprint(x.key))
  }

  lemma NothingLeftQueued(cfg: Config, m: Mem, d: Disk, h: History, slot: nat)
    requires SystemInv(cfg, m, d, h) && m.health == Ready && cfg.role.Receiver? && slot < BINDING_CAPACITY
    requires m.registry.entries[slot].state.Empty? || IsReclaimable(m, slot)
    ensures NothingQueued(d.ring, Head(d), |h.log|, slot)
  {
    if m.registry.entries[slot].state.Empty? {
      EmptyHasNothingQueued(cfg, d, h, slot);
    } else {
      hide Inv;
      CountZero(d.ring, Head(d), |h.log|, slot);
    }
  }

  lemma PreparedFits(cfg: Config, m: Mem, d: Disk, x: Credential)
    requires m.health == Ready && PreparePlan(cfg, m, x).result == Ok && PreparePlan(cfg, m, x).writes != []
    ensures ChosenSlot(m).Some? && m.registry.revision < UINT64_MAX
    ensures
      var slot := ChosenSlot(m).value;
      && (m.registry.entries[slot].state.Empty? || IsReclaimable(m, slot))
      && PreparePlan(cfg, m, x).writes
           == (if m.registry.entries[slot].state.Empty? then [] else [SaveRetired(Leaving(cfg.c, m, slot))])
              + [SaveRegistry(Placed(m.registry, m.registry.revision + 1, slot, x))]
      && (Welcome(cfg, m, d, x, slot) ==> Fitting(cfg, m.registry, Leaving(cfg.c, m, slot), slot, x))
  {
    hide WellFormed, SameNetwork, Clashes, IsRetired, RetireOnce;
    assert forall i | 0 <= i < BINDING_CAPACITY && m.registry.entries[i].state.Empty? :: !IsReclaimable(m, i);
  }

  /** The disk a successful enrollment leaves, and what held before its last write. */
  lemma PreparedDisk(cfg: Config, m: Mem, d: Disk, h: History, x: Credential) returns (slot: nat, d0: Disk)
    requires SystemInv(cfg, m, d, h) && m.health == Ready
    requires PreparePlan(cfg, m, x).result == Ok && PreparePlan(cfg, m, x).writes != []
    ensures ChosenSlot(m) == Some(slot) && Inv(cfg, d0, h) && m.registry.revision < UINT64_MAX
    ensures Reg(d0) == Reg(d) == m.registry && d0.receipts == d.receipts && Ret(d0) == Leaving(cfg.c, m, slot)
    ensures ApplyAll(d, PreparePlan(cfg, m, x).writes)
         == Apply(d0, SaveRegistry(Placed(Reg(d0), m.registry.revision + 1, slot, x)))
    ensures cfg.role.Receiver? ==> NothingQueued(d0.ring, Head(d0), |h.log|, slot)
    ensures Welcome(cfg, m, d, x, slot) ==> Fitting(cfg, Reg(d0), Ret(d0), slot, x)
  {
    hide SystemInv, WellFormed, SameNetwork, Find, Clashes, IsRetired, FirstEmpty, Reclaimable, Inv;
    ReadyIsDisk(cfg, m, d, h);
    slot := ChosenSlot(m).value;
    PreparedFits(cfg, m, d, x);
    if cfg.role.Receiver? {
      NothingLeftQueued(cfg, m, d, h, slot);
    }
    hide PreparePlan, ChosenSlot, Fitting, Placed, Welcome, NothingQueued, Safe, Agrees, RetireOnce;
    var w := SaveRegistry(Placed(Reg(d), m.registry.revision + 1, slot, x));
    if m.registry.entries[slot].state.Empty? {
      d0 := d;
      ApplyOne(d, w);
      assert [] + [w] == [w];
    } else {
      var l := RetireOnce(cfg.c, m.retired, m.registry.entries[slot]);
      d0 := Apply(d, SaveRetired(l));
      ReclaimSafe(cfg, m, d, h, slot);
      ApplyTwo(d, SaveRetired(l), w);
      assert [SaveRetired(l)] + [w] == [SaveRetired(l), w];
      SafeEnd(cfg, d, h, [SaveRetired(l)]);
    }
  }

  /**
   * `prepare` checks neither: an enrollment that reported Ok from a healthy store leaves one
   * that mounts exactly when its slot met neither.
   */
  lemma PrepareMountsIff(cfg: Config, m: Mem, d: Disk, h: History, x: Credential)
    requires SystemInv(cfg, m, d, h) && m.health == Ready
    requires PreparePlan(cfg, m, x).result == Ok && PreparePlan(cfg, m, x).writes != []
    ensures ChosenSlot(m).Some?
    ensures LoadDisk(cfg, ApplyAll(d, PreparePlan(cfg, m, x).writes)).health == Ready
       <==> Welcome(cfg, m, d, x, ChosenSlot(m).value)
  {
    hide SystemInv, Inv, PreparePlan, ChosenSlot, Leaving;
    var slot, d0 := PreparedDisk(cfg, m, d, h, x);
    var revision: u64 := m.registry.revision + 1;
    if Welcome(cfg, m, d, x, slot) {
      PlacedLoads(cfg, d0, h, revision, slot, x);
    } else if cfg.role.Receiver? && slot in d.receipts && d.receipts[slot].generation == x.generation {
      StaleReceiptStopsMount(cfg, d0, revision, slot, x);
    } else {
      var es := Placed(Reg(d0), revision, slot, x).entries;
      assert es[slot].state.Prepared? && es[slot].generation == x.generation && es[slot].key == x.key;
      hide Placed;
    }
  }
}
