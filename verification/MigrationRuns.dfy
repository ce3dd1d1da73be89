// A migrated device joins the runs of the store: what the migration leaves satisfies the
// invariant, so everything proved of those runs holds of the device from then on.
module MigrationRuns {
  import opened Protocol
  import opened Records
  import opened Snapshot
  import opened Store
  import opened StoreInvariant
  import opened StoreOps
  import opened StoreRuns
  import opened Migration

  ghost function CounterOf(c: Crypto, s: Snap, i: nat): u64
    requires i < |s.queue| && s.queue[i].entry < |s.entries|
  {
    var n := OldCounter(c, s.entries[s.queue[i].entry], s.network, s.queue[i].frame);
    if n.Some? then n.value else 0
  }

  /** The queued frame as an accepted sample. */
  ghost function OldSample(c: Crypto, s: Snap, i: nat): Accepted
    requires i < |s.queue| && s.queue[i].entry < |s.entries|
  {
    var e := s.entries[s.queue[i].entry];
    Accepted(e.node, e.generation, e.key, s.network, CounterOf(c, s, i), s.queue[i].frame, UNKNOWN_LINK, KEEP_POWER)
  }

  ghost function OldLog(c: Crypto, s: Snap): (log: seq<Accepted>)
    requires forall i | 0 <= i < |s.queue| :: s.queue[i].entry < |s.entries|
    ensures |log| == |s.queue| && forall i | 0 <= i < |log| :: log[i] == OldSample(c, s, i)
  {
    seq(|s.queue|, i requires 0 <= i < |s.queue| => OldSample(c, s, i))
  }

  ghost function OldHistory(c: Crypto, s: Snap): History
    requires forall i | 0 <= i < |s.queue| :: s.queue[i].entry < |s.entries|
  {
    History(OldLog(c, s), Origin(|s.queue|, CarriedOf(s), ActiveThen(s)), {}, {})
  }

  lemma EntriesInRange(c: Crypto, role: Role, device: u64, s: Snap)
    requires SnapFits(c, role, device, s)
    ensures forall i | 0 <= i < |s.queue| :: s.queue[i].entry < |s.entries|
  {
    forall i | 0 <= i < |s.queue| ensures s.queue[i].entry < |s.entries| {
      QueuedEntry(c, role, device, s, i);
    }
  }

  /** What a migrated device remembers; a transmitter has no samples. */
  ghost function Past(cfg: Config, s: Snap): History
    requires SnapFits(cfg.c, cfg.role, cfg.device, s)
  {
    EntriesInRange(cfg.c, cfg.role, cfg.device, s);
    if cfg.role.Receiver? then OldHistory(cfg.c, s) else NO_HISTORY
  }

  /** The sample the receipt of an entry is of. */
  function ReceivedSample(s: Snap, i: nat): Accepted
    requires i < |s.entries|
  {
    var e := s.entries[i];
    Accepted(e.node, e.generation, e.key, s.network, e.received, e.last, UNKNOWN_LINK, KEEP_POWER)
  }

  function CarriedOf(s: Snap): set<Accepted>
  {
    set i | 0 <= i < |s.entries| && s.entries[i].received != 0 :: ReceivedSample(s, i)
  }

  function ActiveThen(s: Snap): set<u64>
  {
    set i | 0 <= i < |s.entries| && s.entries[i].state.Active? :: s.entries[i].generation
  }

  // ------------------------------------------------------------------ the queue as a log

  lemma OldSampleOpens(c: Crypto, device: u64, s: Snap, i: nat)
    requires SnapFits(c, Receiver, device, s) && i < |s.queue| && s.queue[i].entry < |s.entries|
    ensures Opens(c, OldSample(c, s, i))
  {
    QueuedEntry(c, Receiver, device, s, i);
  }

  lemma OldSamplesOwners(c: Crypto, device: u64, s: Snap, i: nat, j: nat)
    requires SnapFits(c, Receiver, device, s) && i < |s.queue| && j < |s.queue|
    requires s.queue[i].entry < |s.entries| && s.queue[j].entry < |s.entries|
    ensures SameOwner(OldSample(c, s, i), OldSample(c, s, j))
    ensures OldSample(c, s, i).generation == OldSample(c, s, j).generation <==> s.queue[i].entry == s.queue[j].entry
  {
    var a, b := s.queue[i].entry, s.queue[j].entry;
    if a != b {
      OldPairApart(c, Receiver, device, s, a, b);
    }
  }

  lemma OldLogInv(c: Crypto, device: u64, s: Snap)
    requires SnapFits(c, Receiver, device, s)
    requires forall i | 0 <= i < |s.queue| :: s.queue[i].entry < |s.entries|
    ensures LogInv(c, OldLog(c, s), |s.queue|)
  {
    hide SnapFits, Opens;
    var log := OldLog(c, s);
    forall i | 0 <= i < |log| ensures Opens(c, log[i]) {
      OldSampleOpens(c, device, s, i);
    }
    forall i, j | 0 <= i < |log| && 0 <= j < |log| ensures SameOwner(log[i], log[j]) {
      OldSamplesOwners(c, device, s, i, j);
    }
  }

  /** The samples of two entries, by receipt or in the queue, have one owner exactly when the entry is one. */
  lemma EntriesApart(c: Crypto, device: u64, s: Snap, a: nat, b: nat)
    requires SnapFits(c, Receiver, device, s) && a < |s.entries| && b < |s.entries|
    ensures SameOwner(ReceivedSample(s, a), ReceivedSample(s, b))
    ensures s.entries[a].generation == s.entries[b].generation <==> a == b
    ensures s.entries[a].key == s.entries[b].key <==> a == b
    ensures s.entries[a].node == s.entries[b].node && s.entries[a].state.Active? && s.entries[b].state.Active? ==>
      a == b
  {
    if a != b {
      OldPairApart(c, Receiver, device, s, a, b);
    }
  }

  lemma ReceivedOpens(c: Crypto, device: u64, s: Snap, i: nat)
    requires SnapFits(c, Receiver, device, s) && i < |s.entries| && s.entries[i].received != 0
    ensures Opens(c, ReceivedSample(s, i))
  {
    assert OldEntryFits(c, Receiver, device, s.network, s.receiver, s.entries[i]);
  }

  lemma OldCarriedInv(c: Crypto, device: u64, s: Snap)
    requires SnapFits(c, Receiver, device, s)
    requires forall i | 0 <= i < |s.queue| :: s.queue[i].entry < |s.entries|
    ensures CarriedInv(c, OldHistory(c, s))
  {
    var h := OldHistory(c, s);
    forall i | 0 <= i < |s.entries| && s.entries[i].received != 0 ensures Opens(c, ReceivedSample(s, i)) {
      ReceivedOpens(c, device, s, i);
    }
    forall i, j | 0 <= i < |s.entries| && 0 <= j < |s.entries|
      ensures SameOwner(ReceivedSample(s, i), ReceivedSample(s, j))
      ensures s.entries[i].generation == s.entries[j].generation <==> i == j
      ensures s.entries[i].key == s.entries[j].key <==> i == j
      ensures s.entries[i].node == s.entries[j].node && s.entries[i].state.Active? && s.entries[j].state.Active? ==>
        i == j
    {
      EntriesApart(c, device, s, i, j);
    }
    hide SnapFits, Opens;
    forall a, k | a in h.origin.carried && 0 <= k < |h.log| ensures SameOwner(a, h.log[k]) && SameOwner(h.log[k], a) {
      var i :| 0 <= i < |s.entries| && a == ReceivedSample(s, i);
      assert h.log[k] == OldSample(c, s, k);
      assert SameOwner(ReceivedSample(s, i), ReceivedSample(s, s.queue[k].entry));
    }
    hide OldLog;
  }

  /** The last queue position of a slot, when it has any. */
  lemma {:induction false} ThroughIs(q: seq<OldQueued>, slot: nat, n: nat)
    requires n <= |q|
    ensures
      var t := ThroughOf(q, slot, n);
      && (t >= 1 ==> q[t - 1].entry == slot)
      && (forall j | t <= j < n :: q[j].entry != slot)
  {
    if n != 0 && q[n - 1].entry != slot {
      ThroughIs(q, slot, n - 1);
    }
  }

  /** No sample of the entry is newer than its receipt. */
  lemma OldNewest(c: Crypto, device: u64, s: Snap, slot: nat)
    requires SnapFits(c, Receiver, device, s) && slot < |s.entries| && s.entries[slot].received != 0
    requires forall i | 0 <= i < |s.queue| :: s.queue[i].entry < |s.entries|
    ensures Newest(NewReceipt(s, slot), OldHistory(c, s))
    ensures forall j | 0 <= j < |s.queue| && OldSample(c, s, j).generation == s.entries[slot].generation ::
      s.queue[j].entry == slot
  {
    var r, h := NewReceipt(s, slot), OldHistory(c, s);
    forall j | 0 <= j < |h.log| && h.log[j].generation == r.generation
      ensures h.log[j].counter <= r.counter && s.queue[j].entry == slot
    {
      QueuedEntry(c, Receiver, device, s, j);
      EntriesApart(c, device, s, s.queue[j].entry, slot);
    }
    forall i | 0 <= i < |s.entries| ensures s.entries[i].generation == r.generation ==> i == slot {
      EntriesApart(c, device, s, i, slot);
    }
  }

  lemma OldPositioned(c: Crypto, s: Snap, slot: nat)
    requires slot < |s.entries|
    requires forall i | 0 <= i < |s.queue| :: s.queue[i].entry < |s.entries|
    requires forall j | 0 <= j < |s.queue| && OldSample(c, s, j).generation == s.entries[slot].generation ::
      s.queue[j].entry == slot
    ensures Positioned(NewReceipt(s, slot), OldLog(c, s))
  {
    var log, through := OldLog(c, s), ThroughOf(s.queue, slot, |s.queue|);
    ThroughIs(s.queue, slot, |s.queue|);
    hide CounterOf;
    if through >= 1 {
      assert log[through - 1] == OldSample(c, s, through - 1);
    }
    forall j | through <= j < |log| ensures log[j].generation != s.entries[slot].generation {
      assert log[j] == OldSample(c, s, j);
    }
  }

  lemma OldReceiptTells(c: Crypto, device: u64, s: Snap, slot: nat)
    requires SnapFits(c, Receiver, device, s) && slot < |s.entries| && s.entries[slot].received != 0
    requires forall i | 0 <= i < |s.queue| :: s.queue[i].entry < |s.entries|
    ensures Tells(NewReceipt(s, slot), OldHistory(c, s))
  {
    hide SnapFits, Newest, Positioned, OldSample, OldLog;
    OldNewest(c, device, s, slot);
    OldPositioned(c, s, slot);
    assert NewReceipt(s, slot).through <= |s.queue|;
    assert SameSample(NewReceipt(s, slot), ReceivedSample(s, slot)) && ReceivedSample(s, slot) in CarriedOf(s);
  }

  // ------------------------------------------------------------------ the invariant

  lemma EntryOwned(cfg: Config, s: Snap, d: Disk, slot: nat, h: History)
    requires SnapFits(cfg.c, Receiver, cfg.device, s) && Copied(d, s) && slot < |s.entries|
      && s.entries[slot].received != 0
    ensures Owned(Reg(d), d.receipts, h, ReceivedSample(s, slot))
  {
    var reg, a := Reg(d), ReceivedSample(s, slot);
    assert reg.entries[slot] == NewEntry(s.entries[slot]);
    assert OldEntryFits(cfg.c, Receiver, cfg.device, s.network, s.receiver, s.entries[slot]);
    assert IsLive(reg, d.receipts, slot);
    forall k | 0 <= k < |s.entries| ensures (s.entries[k].generation == a.generation || s.entries[k].key == a.key) ==>
      k == slot {
      EntriesApart(cfg.c, cfg.device, s, k, slot);
    }
    hide SnapFits, OldEntryFits, Copied;
    assert forall k | 0 <= k < BINDING_CAPACITY && !reg.entries[k].state.Empty? ::
      k < |s.entries| && reg.entries[k] == NewEntry(s.entries[k]);
    assert OwnedBy(reg, d.receipts, slot, a);
    assert HasGeneration(reg.entries, a.generation) && HasKey(reg.entries, a.key);
  }

  /** A queued sample belongs to its entry, which has a receipt. */
  lemma OldOwned(cfg: Config, s: Snap, d: Disk, i: nat, h: History)
    requires SnapFits(cfg.c, Receiver, cfg.device, s) && Copied(d, s) && i < |s.queue|
    requires s.queue[i].entry < |s.entries|
    ensures Owned(Reg(d), d.receipts, h, OldSample(cfg.c, s, i))
  {
    QueuedEntry(cfg.c, Receiver, cfg.device, s, i);
    EntryOwned(cfg, s, d, s.queue[i].entry, h);
    hide SnapFits, Copied, OldCounter;
    OwnedAlike(Reg(d), d.receipts, h, ReceivedSample(s, s.queue[i].entry), OldSample(cfg.c, s, i));
  }

  /** Ownership looks only at the credential. */
  lemma OwnedAlike(reg: Registry, receipts: map<nat, ReceiptRecord>, h: History, a: Accepted, b: Accepted)
    requires Owned(reg, receipts, h, a)
    requires b.node == a.node && b.generation == a.generation && b.key == a.key && b.network == a.network
    ensures Owned(reg, receipts, h, b)
  {
    forall s | 0 <= s < BINDING_CAPACITY && !reg.entries[s].state.Empty?
      && (reg.entries[s].generation == b.generation || reg.entries[s].key == b.key)
      ensures OwnedBy(reg, receipts, s, b)
    {
      assert OwnedBy(reg, receipts, s, a);
    }
  }

  lemma OldReceiptInv(cfg: Config, s: Snap, d: Disk, slot: nat)
    requires SnapFits(cfg.c, Receiver, cfg.device, s) && Copied(d, s) && slot < BINDING_CAPACITY && cfg.role.Receiver?
    requires forall i | 0 <= i < |s.queue| :: s.queue[i].entry < |s.entries|
    ensures ReceiptInv(Reg(d), d.receipts, OldHistory(cfg.c, s), slot)
  {
    if slot in d.receipts {
      MigratedRecordsFit(cfg, s);
      OldReceiptTells(cfg.c, cfg.device, s, slot);
      assert OldEntryFits(cfg.c, Receiver, cfg.device, s.network, s.receiver, s.entries[slot]);
      hide SnapFits, OldEntryFits, Tells, ReceiptFits, QueueFits, OldHistory;
      assert Reg(d).entries[slot] == NewEntry(s.entries[slot]);
    }
  }

  lemma OldRingHolds(cfg: Config, s: Snap, d: Disk, i: nat)
    requires SnapFits(cfg.c, Receiver, cfg.device, s) && Copied(d, s) && i < |s.queue| && cfg.role.Receiver?
    requires s.queue[i].entry < |s.entries|
    ensures RingHolds(Reg(d), d.ring, i, OldSample(cfg.c, s, i))
  {
    CopiedParts(d, s);
    QueuedEntry(cfg.c, Receiver, cfg.device, s, i);
    MigratedRecordsFit(cfg, s);
    hide SnapFits, Copied, QueueFits, OldQueuedFits;
  }

  lemma OldResting(c: Crypto, s: Snap, d: Disk)
    requires |s.entries| <= BINDING_CAPACITY && |s.queue| <= QUEUE_CAPACITY && Copied(d, s)
    requires forall i | 0 <= i < |s.queue| :: s.queue[i].entry < |s.entries|
    ensures Resting(Reg(d).entries, OldHistory(c, s))
  {
    forall g | ActiveGeneration(Reg(d).entries, g) ensures g in ActiveThen(s) {
      var i :| 0 <= i < BINDING_CAPACITY && Reg(d).entries[i].state.Active? && Reg(d).entries[i].generation == g;
      assert Reg(d).entries[i] == NewEntry(s.entries[i]);
    }
  }

  lemma CopiedQueueInv(cfg: Config, s: Snap, d: Disk)
    requires SnapFits(cfg.c, Receiver, cfg.device, s) && Copied(d, s) && cfg.role.Receiver?
    requires forall i | 0 <= i < |s.queue| :: s.queue[i].entry < |s.entries|
    ensures QueueInv(cfg.c, Reg(d), Head(d), d.receipts, d.ring, OldHistory(cfg.c, s))
  {
    var h := OldHistory(cfg.c, s);
    CopiedParts(d, s);
    OldLogInv(cfg.c, cfg.device, s);
    OldCarriedInv(cfg.c, cfg.device, s);
    OldResting(cfg.c, s, d);
    forall i | 0 <= i < |h.log| ensures Owned(Reg(d), d.receipts, h, h.log[i])
      && RingHolds(Reg(d), d.ring, i, h.log[i]) {
      OldOwned(cfg, s, d, i, h);
      OldRingHolds(cfg, s, d, i);
    }
    forall a | a in h.origin.carried ensures Owned(Reg(d), d.receipts, h, a) {
      var i :| 0 <= i < |s.entries| && s.entries[i].received != 0 && a == ReceivedSample(s, i);
      EntryOwned(cfg, s, d, i, h);
    }
    forall slot | 0 <= slot < BINDING_CAPACITY ensures ReceiptInv(Reg(d), d.receipts, h, slot) {
      OldReceiptInv(cfg, s, d, slot);
    }
    assert |s.queue| <= QUEUE_CAPACITY;
    hide SnapFits, Copied, LogInv, CarriedInv, Resting, Owned, RingHolds, ReceiptInv;
  }

  /** The records a completed migration leaves satisfy the invariant. */
  lemma MigratedInv(cfg: Config, s: Snap)
    requires SnapFits(cfg.c, cfg.role, cfg.device, s) && OnePreparedEach(s) && MarksApart(cfg.c, NewEntries(s))
    ensures Inv(cfg, ApplyAll(OldDevice(s), MigrateWrites(cfg.role, s)), Past(cfg, s))
  {
    EntriesInRange(cfg.c, cfg.role, cfg.device, s);
    var d, h := ApplyAll(OldDevice(s), MigrateWrites(cfg.role, s)), Past(cfg, s);
    MigratedCredentials(cfg, s, d, h);
    DeviceNamed(cfg, s);
    SnapEntriesFit(cfg.c, cfg.role, cfg.device, s);
    hide SnapFits, CredentialInv, RegistryFits, QueueInv, MarksApart, OldHistory, Copied, OnePreparedEach;
    if cfg.role.Receiver? {
      CopiedByMigration(s);
      CopiedParts(d, s);
      CopiedQueueInv(cfg, s, d);
    } else {
      WrittenAlone(s);
    }
  }

  /** A transmitter's migration writes its registry and nothing else. */
  lemma WrittenAlone(s: Snap)
    ensures ApplyAll(OldDevice(s), MigrateWrites(Transmitter, s)) == Apply(OldDevice(s), SaveRegistry(NewRegistry(s)))
  {
    TransmitterShape(s);
    assert [SaveRegistry(NewRegistry(s))][1..] == [];
  }

  lemma MigratedCredentials(cfg: Config, s: Snap, d: Disk, h: History)
    requires SnapFits(cfg.c, cfg.role, cfg.device, s) && OnePreparedEach(s) && MarksApart(cfg.c, NewEntries(s))
    requires d == ApplyAll(OldDevice(s), MigrateWrites(cfg.role, s)) && h.goneGenerations == {} && h.goneKeys == {}
    ensures d.registry.Some? && RegistryFits(cfg.role, cfg.device, Reg(d)) && CredentialInv(cfg, Reg(d), Ret(d), h)
  {
    ValidatedIff(cfg, s);
    NewRegistryFits(cfg, s);
    SnapEntriesFit(cfg.c, cfg.role, cfg.device, s);
    MigratedTables(cfg.role, s);
    hide SnapFits, Validated, RegistryFits, MarksApart, OnePreparedEach, MigrateWrites, ApplyAll;
  }

  lemma MigratedTables(role: Role, s: Snap)
    requires |s.entries| <= BINDING_CAPACITY && |s.queue| <= QUEUE_CAPACITY
    ensures
      var d := ApplyAll(OldDevice(s), MigrateWrites(role, s));
      d.registry.Some? && Reg(d) == NewRegistry(s) && Ret(d) == []
  {
    var d := ApplyAll(OldDevice(s), MigrateWrites(role, s));
    if role.Receiver? {
      CopiedByMigration(s);
      hide MigrateWrites, ApplyAll, Copied;
      CopiedParts(d, s);
    } else {
      WrittenAlone(s);
    }
  }

  /** The same after any interrupted migrations. */
  lemma CompletedInv(cfg: Config, s: Snap, d: Disk)
    requires SnapFits(cfg.c, cfg.role, cfg.device, s) && OnePreparedEach(s) && MarksApart(cfg.c, NewEntries(s))
    requires Unmigrated(cfg.role, s, d)
    ensures Inv(cfg, ApplyAll(d, MigrateWrites(cfg.role, s)), Past(cfg, s))
  {
    hide SnapFits, MarksApart, OnePreparedEach, Inv, Past, MigrateWrites, ApplyAll, Unmigrated;
    UnmigratedStep(cfg.role, s, d, 0);
    MigratedInv(cfg, s);
  }

  lemma FreshlyMounted(cfg: Config, s: State)
    requires Inv(cfg, s.d, s.h) && s.m == LoadDisk(cfg, s.d)
    ensures SystemInv(cfg, s.m, s.d, s.h)
  {
    Mounts(cfg, s.d, s.h);
    hide Inv, LoadDisk;
  }

  /**
   * Any number of interrupted migrations, then a completed one and a mount: from there every
   * run of the store mounts at every point, and nothing of the snapshot's queue is lost.
   */
  lemma MigratedRuns(cfg: Config, s: Snap, ks: seq<nat>, ss: seq<State>, es: seq<Event>, n: nat)
    requires SnapFits(cfg.c, cfg.role, cfg.device, s) && OnePreparedEach(s) && MarksApart(cfg.c, NewEntries(s))
    requires Run(cfg, ss, es) && n < |ss|
    requires
      var d := ApplyAll(Attempts(OldDevice(s), MigrateWrites(cfg.role, s), ks), MigrateWrites(cfg.role, s));
      ss[0] == State(LoadDisk(cfg, d), d, Past(cfg, s))
    ensures SystemInv(cfg, ss[n].m, ss[n].d, ss[n].h) && LoadDisk(cfg, ss[n].d).health == Ready
    ensures Past(cfg, s).log <= ss[n].h.log && ss[n].h.origin == Past(cfg, s).origin
  {
    hide SnapFits, MarksApart, OnePreparedEach, Inv, LoadDisk, Past, MigrateWrites, Attempts, ApplyAll, Run;
    AttemptsAbsorbed(OldDevice(s), MigrateWrites(cfg.role, s), ks);
    MigratedInv(cfg, s);
    Mounts(cfg, ss[0].d, ss[0].h);
    FreshlyMounted(cfg, ss[0]);
    EveryStateMounts(cfg, ss, es, n);
    LogGrows(cfg, ss, es, 0, n);
  }
}
