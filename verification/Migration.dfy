// Migration of a v1 device (`migrate`): the snapshot is copied into records, the registry last.
module Migration {
  import opened Protocol
  import opened Codec
  import opened Records
  import opened Snapshot
  import opened Store
  import opened StoreInvariant

  function NewEntry(e: OldEntry): Entry { Entry(e.state, e.node, e.generation, e.counter, e.key) }

  function NewEntries(s: Snap): (es: Entries)
    ensures forall i | 0 <= i < BINDING_CAPACITY ::
      es[i] == if i < |s.entries| then NewEntry(s.entries[i]) else NO_ENTRY
  {
    seq(BINDING_CAPACITY, i requires 0 <= i < BINDING_CAPACITY =>
      if i < |s.entries| then NewEntry(s.entries[i]) else NO_ENTRY)
  }

  function NewRegistry(s: Snap): Registry { Registry(s.revision, s.network, s.receiver, s.profile, NewEntries(s)) }

  /** One past the last of the first `n` queue positions that the slot filled, or zero. */
  function ThroughOf(q: seq<OldQueued>, slot: nat, n: nat): (t: nat)
    requires n <= |q|
    ensures t <= n
  {
    if n == 0 then 0 else if q[n - 1].entry == slot then n else ThroughOf(q, slot, n - 1)
  }

  function NewQueued(s: Snap, i: nat): QueueRecord
    requires i < |s.queue|
  {
    var q := s.queue[i];
    QueueRecord(i, if q.entry < |s.entries| then s.entries[q.entry].generation else 0, q.entry, q.frame, UNKNOWN_LINK)
  }

  function NewReceipt(s: Snap, slot: nat): ReceiptRecord
    requires slot < |s.entries|
  {
    var e := s.entries[slot];
    ReceiptRecord(e.generation, ThroughOf(s.queue, slot, |s.queue|), e.received, e.last, KEEP_POWER)
  }

  function QueueWrites(s: Snap, n: nat): seq<Write>
    requires n <= |s.queue|
  {
    if n == 0 then [] else QueueWrites(s, n - 1) + [SaveQueue(NewQueued(s, n - 1))]
  }

  function ReceiptWrites(s: Snap, n: nat): seq<Write>
    requires n <= |s.entries|
  {
    if n == 0 then []
    else if s.entries[n - 1].received == 0 then ReceiptWrites(s, n - 1)
    else ReceiptWrites(s, n - 1) + [SaveReceipt(n - 1, NewReceipt(s, n - 1))]
  }

  /** Everything but the registry. */
  function CopyWrites(role: Role, s: Snap): seq<Write>
  {
    if role.Receiver? then QueueWrites(s, |s.queue|) + ReceiptWrites(s, |s.entries|) + [SaveHead(0)] else []
  }

  function MigrateWrites(role: Role, s: Snap): seq<Write> { CopyWrites(role, s) + [SaveRegistry(NewRegistry(s))] }

  // ------------------------------------------------------------------ interrupted attempts

  /** Two writes replace the same record. */
  predicate SameRecord(v: Write, w: Write)
  {
    match v
    case SaveRegistry(_) => w.SaveRegistry?
    case SaveRetired(_) => w.SaveRetired?
    case SaveHead(_) => w.SaveHead?
    case SaveQueue(q) => w.SaveQueue? && w.record.sequence % QUEUE_CAPACITY == q.sequence % QUEUE_CAPACITY
    case SaveReceipt(slot, _) => w.SaveReceipt? && w.slot == slot
    case EraseLegacy => w.EraseLegacy?
  }

  lemma WritesCommute(d: Disk, v: Write, w: Write)
    ensures SameRecord(v, w) ==> Apply(Apply(d, v), w) == Apply(d, w)
    ensures !SameRecord(v, w) ==> Apply(Apply(d, v), w) == Apply(Apply(d, w), v)
  {
    if v.SaveQueue? && w.SaveQueue? {
      var i, j := v.record.sequence % QUEUE_CAPACITY, w.record.sequence % QUEUE_CAPACITY;
      if i == j {
        assert d.ring[i := v.record][j := w.record] == d.ring[j := w.record];
      } else {
        assert d.ring[i := v.record][j := w.record] == d.ring[j := w.record][i := v.record];
      }
    }
    if v.SaveReceipt? && w.SaveReceipt? {
      if v.slot == w.slot {
        assert d.receipts[v.slot := v.receipt][w.slot := w.receipt] == d.receipts[w.slot := w.receipt];
      } else {
        assert d.receipts[v.slot := v.receipt][w.slot := w.receipt]
          == d.receipts[w.slot := w.receipt][v.slot := v.receipt];
      }
    }
  }

  /** A write repeated later in the same list leaves no trace. */
  lemma {:induction false} Absorbed(d: Disk, v: Write, ws: seq<Write>)
    requires v in ws
    ensures ApplyAll(Apply(d, v), ws) == ApplyAll(d, ws)
    decreases ws
  {
    WritesCommute(d, v, ws[0]);
    if !SameRecord(v, ws[0]) {
      assert v in ws[1..];
      Absorbed(Apply(d, ws[0]), v, ws[1..]);
    }
  }

  lemma {:induction false} AllAbsorbed(d: Disk, vs: seq<Write>, ws: seq<Write>)
    requires forall v | v in vs :: v in ws
    ensures ApplyAll(ApplyAll(d, vs), ws) == ApplyAll(d, ws)
    decreases vs
  {
    if vs != [] {
      AllAbsorbed(Apply(d, vs[0]), vs[1..], ws);
      Absorbed(d, vs[0], ws);
    }
  }

  /** Attempts that stopped after the given numbers of writes, one after the other. */
  function Attempts(d: Disk, ws: seq<Write>, ks: seq<nat>): Disk
    decreases ks
  {
    if ks == [] then d
    else Attempts(ApplyAll(d, if ks[0] <= |ws| then ws[..ks[0]] else ws), ws, ks[1..])
  }

  lemma {:induction false} AttemptsAbsorbed(d: Disk, ws: seq<Write>, ks: seq<nat>)
    ensures ApplyAll(Attempts(d, ws, ks), ws) == ApplyAll(d, ws)
    decreases ks
  {
    if ks != [] {
      var part := if ks[0] <= |ws| then ws[..ks[0]] else ws;
      AttemptsAbsorbed(ApplyAll(d, part), ws, ks[1..]);
      AllAbsorbed(d, part, ws);
    }
  }

  // ------------------------------------------------------------------ until the registry exists

  predicate NoRegistryWrite(ws: seq<Write>)
  {
    forall w | w in ws :: !w.SaveRegistry? && !w.EraseLegacy? && !w.SaveRetired?
  }

  lemma {:induction false} CopyKeeps(d: Disk, ws: seq<Write>)
    requires NoRegistryWrite(ws)
    ensures ApplyAll(d, ws).registry == d.registry && ApplyAll(d, ws).legacy == d.legacy
    ensures ApplyAll(d, ws).retired == d.retired
    decreases ws
  {
    if ws != [] {
      CopyKeeps(Apply(d, ws[0]), ws[1..]);
    }
  }

  lemma {:induction false} QueueWritesOnly(s: Snap, n: nat)
    requires n <= |s.queue|
    ensures forall w | w in QueueWrites(s, n) :: w.SaveQueue?
  {
    if n != 0 {
      QueueWritesOnly(s, n - 1);
    }
  }

  lemma {:induction false} ReceiptWritesOnly(s: Snap, n: nat)
    requires n <= |s.entries|
    ensures forall w | w in ReceiptWrites(s, n) :: w.SaveReceipt?
  {
    if n != 0 {
      ReceiptWritesOnly(s, n - 1);
    }
  }

  lemma CopyWritesOnly(role: Role, s: Snap)
    ensures NoRegistryWrite(CopyWrites(role, s))
  {
    QueueWritesOnly(s, |s.queue|);
    ReceiptWritesOnly(s, |s.entries|);
  }

  /** Attempts cut before the registry write leave the snapshot, and no registry, behind. */
  lemma {:induction false} AttemptsKeepSnapshot(role: Role, d: Disk, s: Snap, ks: seq<nat>)
    requires d.registry.None? && d.legacy == Some(s)
    requires forall k | k in ks :: k < |MigrateWrites(role, s)|
    ensures
      var a := Attempts(d, MigrateWrites(role, s), ks);
      a.registry.None? && a.legacy == Some(s) && a.retired == d.retired
    decreases ks
  {
    if ks != [] {
      var ws := MigrateWrites(role, s);
      assert ks[0] in ks;
      CopyWritesOnly(role, s);
      assert ws[..ks[0]] == CopyWrites(role, s)[..ks[0]];
      CopyKeeps(d, ws[..ks[0]]);
      assert forall k | k in ks[1..] :: k in ks;
      AttemptsKeepSnapshot(role, ApplyAll(d, ws[..ks[0]]), s, ks[1..]);
    }
  }

  /** A v1 device: nothing but the snapshot. */
  function OldDevice(s: Snap): Disk { Disk(None, None, None, map[], map[], Some(s)) }

  /** A v1 device on which any number of migrations stopped before the registry was written. */
  ghost predicate Unmigrated(role: Role, s: Snap, d: Disk)
  {
    exists ks: seq<nat> :: (forall k | k in ks :: k < |MigrateWrites(role, s)|)
      && d == Attempts(OldDevice(s), MigrateWrites(role, s), ks)
  }

  lemma {:induction false} OneMoreAttempt(d: Disk, ws: seq<Write>, ks: seq<nat>, k: nat)
    requires k <= |ws|
    ensures Attempts(d, ws, ks + [k]) == ApplyAll(Attempts(d, ws, ks), ws[..k])
    decreases ks
  {
    if ks == [] {
      assert [] + [k] == [k];
    } else {
      assert (ks + [k])[1..] == ks[1..] + [k];
      OneMoreAttempt(ApplyAll(d, if ks[0] <= |ws| then ws[..ks[0]] else ws), ws, ks[1..], k);
    }
  }

  /** An attempt on such a device leaves one again, or completes the migration of a new one. */
  lemma UnmigratedStep(role: Role, s: Snap, d: Disk, k: nat)
    requires Unmigrated(role, s, d) && k <= |MigrateWrites(role, s)|
    ensures d.registry.None? && d.legacy == Some(s)
    ensures k < |MigrateWrites(role, s)| ==> Unmigrated(role, s, ApplyAll(d, MigrateWrites(role, s)[..k]))
    ensures ApplyAll(d, MigrateWrites(role, s)) == ApplyAll(OldDevice(s), MigrateWrites(role, s))
  {
    var ws := MigrateWrites(role, s);
    hide MigrateWrites, Attempts, ApplyAll;
    var ks: seq<nat> :| (forall i | i in ks :: i < |ws|) && d == Attempts(OldDevice(s), ws, ks);
    AttemptsAbsorbed(OldDevice(s), ws, ks);
    AttemptsKeepSnapshot(role, OldDevice(s), s, ks);
    OneMoreAttempt(OldDevice(s), ws, ks, k);
    if k < |ws| {
      assert forall i | i in ks + [k] :: i < |ws|;
    }
  }

  // ------------------------------------------------------------------ what the copy holds

  lemma {:induction false} ApplySplit(d: Disk, a: seq<Write>, b: seq<Write>)
    ensures ApplyAll(d, a + b) == ApplyAll(ApplyAll(d, a), b)
    decreases a
  {
    if a == [] {
      assert a + b == b;
    } else {
      assert (a + b)[1..] == a[1..] + b;
      ApplySplit(Apply(d, a[0]), a[1..], b);
    }
  }

  lemma ApplyLast(d: Disk, a: seq<Write>, w: Write)
    ensures ApplyAll(d, a + [w]) == Apply(ApplyAll(d, a), w)
  {
    ApplySplit(d, a, [w]);
    assert [w][1..] == [];
  }

  lemma {:induction false} QueueCopied(d: Disk, s: Snap, n: nat)
    requires n <= |s.queue| <= QUEUE_CAPACITY
    ensures
      var t := ApplyAll(d, QueueWrites(s, n));
      && t.receipts == d.receipts && t.head == d.head
      && (forall i | 0 <= i < n :: i in t.ring && t.ring[i] == NewQueued(s, i))
  {
    if n != 0 {
      QueueCopied(d, s, n - 1);
      ApplyLast(d, QueueWrites(s, n - 1), SaveQueue(NewQueued(s, n - 1)));
    }
  }

  lemma {:induction false} ReceiptsCopied(d: Disk, s: Snap, n: nat)
    requires n <= |s.entries| <= BINDING_CAPACITY
    ensures
      var t := ApplyAll(d, ReceiptWrites(s, n));
      && t.ring == d.ring && t.head == d.head
      && (forall i | 0 <= i < n && s.entries[i].received != 0 :: i in t.receipts && t.receipts[i] == NewReceipt(s, i))
      && (forall i | i in t.receipts ::
            (i < n && s.entries[i].received != 0) || (i in d.receipts && t.receipts[i] == d.receipts[i]))
  {
    if n != 0 {
      ReceiptsCopied(d, s, n - 1);
      if s.entries[n - 1].received != 0 {
        ApplyLast(d, ReceiptWrites(s, n - 1), SaveReceipt(n - 1, NewReceipt(s, n - 1)));
      }
    }
  }

  /** What the completed migration leaves, on a receiver. */
  ghost predicate Copied(d: Disk, s: Snap)
    requires |s.entries| <= BINDING_CAPACITY && |s.queue| <= QUEUE_CAPACITY
  {
    && d.registry == Some(NewRegistry(s)) && d.retired.None? && d.head == Some(0) && d.legacy == Some(s)
    && (forall i | 0 <= i < |s.queue| :: i in d.ring && d.ring[i] == NewQueued(s, i))
    && (forall i | 0 <= i < |s.entries| && s.entries[i].received != 0 ::
        i in d.receipts && d.receipts[i] == NewReceipt(s, i))
    && (forall i | i in d.receipts :: i < |s.entries| && s.entries[i].received != 0)
  }

  lemma CopiedByMigration(s: Snap)
    requires |s.entries| <= BINDING_CAPACITY && |s.queue| <= QUEUE_CAPACITY
    ensures Copied(ApplyAll(OldDevice(s), MigrateWrites(Receiver, s)), s)
  {
    var q, r := QueueWrites(s, |s.queue|), ReceiptWrites(s, |s.entries|);
    var d0 := OldDevice(s);
    var d1 := ApplyAll(d0, q);
    var d2 := ApplyAll(d1, r);
    var d3 := Apply(d2, SaveHead(0));
    QueueCopied(d0, s, |s.queue|);
    ReceiptsCopied(d1, s, |s.entries|);
    CopyWritesOnly(Receiver, s);
    CopyKeeps(d0, CopyWrites(Receiver, s));
    ApplySplit(d0, q, r);
    ApplyLast(d0, q + r, SaveHead(0));
    ApplyLast(d0, q + r + [SaveHead(0)], SaveRegistry(NewRegistry(s)));
  }

  // ------------------------------------------------------------------ it mounts

  /** Two prepared generations of one node: the v1 rules allow it, the record rules do not. */
  predicate OnePreparedEach(s: Snap)
  {
    forall i, j | 0 <= j < i < |s.entries| ::
      !(s.entries[i].node == s.entries[j].node && s.entries[i].state.Prepared? && s.entries[j].state.Prepared?)
  }

  lemma {:induction false} AtMostOneActive(es: Entries, node: u64, p: nat, n: nat)
    requires n <= BINDING_CAPACITY
    requires forall i | 0 <= i < BINDING_CAPACITY && i != p :: !(es[i].state.Active? && es[i].node == node)
    ensures ActiveOf(es, node, n) <= 1 && (n <= p ==> ActiveOf(es, node, n) == 0)
  {
    if n != 0 {
      AtMostOneActive(es, node, p, n - 1);
    }
  }

  lemma OldPairApart(c: Crypto, role: Role, device: u64, s: Snap, i: nat, j: nat)
    requires SnapFits(c, role, device, s) && i < |s.entries| && j < |s.entries| && i != j
    ensures OldApart(s.entries[i], s.entries[j])
  {
    var lo, hi := if i < j then i else j, if i < j then j else i;
    assert OldApart(s.entries[lo], s.entries[hi]);
  }

  lemma OneActiveEach(c: Crypto, role: Role, device: u64, s: Snap, i: nat)
    requires SnapFits(c, role, device, s) && i < BINDING_CAPACITY && NewEntries(s)[i].state.Active?
    ensures ActiveOf(NewEntries(s), NewEntries(s)[i].node, BINDING_CAPACITY) <= 1
  {
    var es := NewEntries(s);
    hide SnapFits;
    forall j | 0 <= j < BINDING_CAPACITY && j != i ensures !(es[j].state.Active? && es[j].node == es[i].node) {
      if j < |s.entries| {
        OldPairApart(c, role, device, s, i, j);
      }
    }
    AtMostOneActive(es, es[i].node, i, BINDING_CAPACITY);
  }

  /** The entries of a decodable snapshot satisfy the record rules exactly when none clash as prepared. */
  lemma ValidatedIff(cfg: Config, s: Snap)
    requires SnapFits(cfg.c, cfg.role, cfg.device, s)
    ensures Validated(cfg, NewEntries(s), []) <==> OnePreparedEach(s)
  {
    hide SnapFits, NewEntries;
    var es := NewEntries(s);
    if OnePreparedEach(s) {
      forall i, j | 0 <= i < BINDING_CAPACITY && 0 <= j < BINDING_CAPACITY && i != j
        ensures !es[i].state.Empty? && !es[j].state.Empty? ==> Apart(es[i], es[j])
      {
        if i < |s.entries| && j < |s.entries| {
          OldPairApart(cfg.c, cfg.role, cfg.device, s, i, j);
        }
      }
      forall i | 0 <= i < BINDING_CAPACITY && es[i].state.Active?
        ensures ActiveOf(es, es[i].node, BINDING_CAPACITY) <= ActiveLimit(cfg.role)
      {
        OneActiveEach(cfg.c, cfg.role, cfg.device, s, i);
      }
    } else {
      SnapEntriesFit(cfg.c, cfg.role, cfg.device, s);
      var i, j :| 0 <= j < i < |s.entries|
        && s.entries[i].node == s.entries[j].node && s.entries[i].state.Prepared? && s.entries[j].state.Prepared?;
      assert !Apart(es[i], es[j]);
    }
  }

  lemma SnapEntriesFit(c: Crypto, role: Role, device: u64, s: Snap)
    requires SnapFits(c, role, device, s)
    ensures |s.entries| <= BINDING_CAPACITY && |s.queue| <= QUEUE_CAPACITY
  {
  }

  lemma {:induction false} OccupiedPrefix(s: Snap, n: nat)
    requires n <= BINDING_CAPACITY && forall i | 0 <= i < |s.entries| :: !s.entries[i].state.Empty?
    ensures Occupied(NewEntries(s), n) == if n <= |s.entries| then n else |s.entries|
  {
    if n != 0 {
      OccupiedPrefix(s, n - 1);
    }
  }

  lemma NewRegistryFits(cfg: Config, s: Snap)
    requires SnapFits(cfg.c, cfg.role, cfg.device, s)
    ensures RegistryFits(cfg.role, cfg.device, NewRegistry(s))
  {
    OccupiedEntries(cfg.c, cfg.role, cfg.device, s);
    OccupiedPrefix(s, BINDING_CAPACITY);
    forall i | 0 <= i < BINDING_CAPACITY
      ensures NewEntries(s)[i] == NO_ENTRY || EntryFits(cfg.role, cfg.device, s.receiver, NewEntries(s)[i])
    {
      if i < |s.entries| {
        assert OldEntryFits(cfg.c, cfg.role, cfg.device, s.network, s.receiver, s.entries[i]);
      }
    }
  }

  lemma ReceiptCopiedReady(cfg: Config, s: Snap, d: Disk, slot: nat)
    requires SnapFits(cfg.c, Receiver, cfg.device, s) && Copied(d, s) && slot < BINDING_CAPACITY
    ensures SlotHealth(cfg.c, Reg(d), d.receipts, slot) == Ready
    ensures Live(Reg(d), d.receipts)[slot]
      == if slot < |s.entries| && s.entries[slot].received != 0 then NewReceipt(s, slot) else NO_RECEIPT_RECORD
  {
    if slot in d.receipts {
      var e := s.entries[slot];
      assert OldEntryFits(cfg.c, Receiver, cfg.device, s.network, s.receiver, e);
      assert BindingOf(NewEntry(e), s.network) == Binding(s.network, e.node, e.key, true);
      assert FrameCounter(cfg.c, NewEntry(e), s.network, e.last) == Some(e.received);
    }
  }

  lemma {:induction false} ReceiptsCopiedReady(cfg: Config, s: Snap, d: Disk, n: nat)
    requires SnapFits(cfg.c, Receiver, cfg.device, s) && Copied(d, s) && n <= BINDING_CAPACITY
    ensures ReceiptsHealth(cfg.c, Reg(d), d.receipts, n) == Ready
  {
    hide SnapFits, Copied, SlotHealth, Live;
    if n != 0 {
      ReceiptsCopiedReady(cfg, s, d, n - 1);
      ReceiptCopiedReady(cfg, s, d, n - 1);
    }
  }

  lemma {:induction false} ThroughLast(q: seq<OldQueued>, slot: nat, n: nat)
    requires 0 < n <= |q| && q[n - 1].entry == slot
    ensures ThroughOf(q, slot, n) == n
  {
  }

  function ReceiptOf(s: Snap, slot: nat): ReceiptRecord
  {
    if slot < |s.entries| && s.entries[slot].received != 0 then NewReceipt(s, slot) else NO_RECEIPT_RECORD
  }

  lemma CopiedParts(d: Disk, s: Snap)
    requires |s.entries| <= BINDING_CAPACITY && |s.queue| <= QUEUE_CAPACITY && Copied(d, s)
    ensures Reg(d) == NewRegistry(s) && Ret(d) == [] && Head(d) == 0 && d.registry.Some?
    ensures forall i | 0 <= i < |s.queue| :: i % QUEUE_CAPACITY == i && i in d.ring && d.ring[i] == NewQueued(s, i)
  {
    hide NewRegistry, NewQueued;
  }

  lemma LiveCopied(cfg: Config, s: Snap, d: Disk)
    requires SnapFits(cfg.c, Receiver, cfg.device, s) && Copied(d, s)
    ensures forall i | 0 <= i < BINDING_CAPACITY :: Live(Reg(d), d.receipts)[i] == ReceiptOf(s, i)
  {
    hide SnapFits, Copied, Live;
    forall i | 0 <= i < BINDING_CAPACITY ensures Live(Reg(d), d.receipts)[i] == ReceiptOf(s, i) {
      ReceiptCopiedReady(cfg, s, d, i);
    }
  }

  /** A queued frame's entry has a receipt, at least as recent. */
  lemma QueuedEntry(c: Crypto, role: Role, device: u64, s: Snap, i: nat)
    requires SnapFits(c, role, device, s) && i < |s.queue|
    ensures
      var q := s.queue[i];
      && q.entry < |s.entries| <= BINDING_CAPACITY
        && (s.entries[q.entry].state.Active? || s.entries[q.entry].state.Revoked?)
      && s.entries[q.entry].received != 0 && s.entries[q.entry].generation != 0 && |q.frame| <= MAX_FRAME
      && OldQueuedFits(c, s.network, s.entries, q)
  {
    var q := s.queue[i];
    assert OldQueuedFits(c, s.network, s.entries, q);
    assert OldEntryFits(c, role, device, s.network, s.receiver, s.entries[q.entry]);
    OldCounterPositive(c, s.entries[q.entry], s.network, q.frame);
  }

  /** The tail recovered after the migration is the number of queued frames. */
  lemma TailCopied(cfg: Config, s: Snap, d: Disk)
    requires SnapFits(cfg.c, Receiver, cfg.device, s) && Copied(d, s)
    ensures TailOf(0, Live(Reg(d), d.receipts), BINDING_CAPACITY) == |s.queue|
  {
    var live := Live(Reg(d), d.receipts);
    LiveCopied(cfg, s, d);
    if s.queue != [] {
      QueuedEntry(cfg.c, Receiver, cfg.device, s, |s.queue| - 1);
    }
    hide SnapFits, Copied, Live, OldQueuedFits, Reg;
    TailBounds(0, live, |s.queue|, BINDING_CAPACITY);
    if s.queue != [] {
      var q := s.queue[|s.queue| - 1];
      ThroughLast(s.queue, q.entry, |s.queue|);
      assert live[q.entry] == ReceiptOf(s, q.entry);
    }
  }

  lemma OldCounterPositive(c: Crypto, e: OldEntry, network: u64, f: Frame)
    requires OldCounter(c, e, network, f).Some?
    ensures OldCounter(c, e, network, f).value != 0 && |f| <= MAX_FRAME
  {
    OpenedFields(c, Binding(network, e.node, e.key, true), f);
  }

  lemma ItemCopiedReady(cfg: Config, s: Snap, d: Disk, i: nat)
    requires SnapFits(cfg.c, Receiver, cfg.device, s) && Copied(d, s) && i < |s.queue|
    ensures ItemHealth(cfg.c, Reg(d), Live(Reg(d), d.receipts), d.ring, i) == Ready
  {
    CopiedParts(d, s);
    LiveCopied(cfg, s, d);
    QueuedEntry(cfg.c, Receiver, cfg.device, s, i);
    hide SnapFits, Copied, Live, Open, OldQueuedFits;
    ItemMatches(cfg.c, s, d.ring, Live(Reg(d), d.receipts), i);
  }

  lemma ItemMatches(c: Crypto, s: Snap, ring: map<nat, QueueRecord>, live: Receipts, i: nat)
    requires |s.entries| <= BINDING_CAPACITY && i < |s.queue| <= QUEUE_CAPACITY
    requires i % QUEUE_CAPACITY == i && i in ring && ring[i] == NewQueued(s, i)
    requires OldQueuedFits(c, s.network, s.entries, s.queue[i])
    requires s.entries[s.queue[i].entry].received != 0 && s.entries[s.queue[i].entry].generation != 0
    requires |s.queue[i].frame| <= MAX_FRAME
    requires live[s.queue[i].entry] == ReceiptOf(s, s.queue[i].entry)
    ensures ItemHealth(c, NewRegistry(s), live, ring, i) == Ready
  {
    hide Open;
    var q := s.queue[i];
    var e := s.entries[q.entry];
    assert BindingOf(NewEntry(e), s.network) == Binding(s.network, e.node, e.key, true);
    assert FrameCounter(c, NewEntry(e), s.network, q.frame) == OldCounter(c, e, s.network, q.frame);
  }

  /** The queue the migrated device has: the snapshot's, in the same order, at positions 0, 1, ... */
  ghost predicate SameQueue(m: Mem, d: Disk, s: Snap)
  {
    && m.head == 0 && m.tail == |s.queue|
    && (forall i | 0 <= i < |s.queue| ::
          i in d.ring && d.ring[i].frame == s.queue[i].frame && d.ring[i].slot == s.queue[i].entry
          && d.ring[i].sequence == i)
  }

  ghost predicate SameState(m: Mem, s: Snap)
    requires |s.entries| <= BINDING_CAPACITY
  {
    && m.registry == NewRegistry(s)
    && (forall i | 0 <= i < BINDING_CAPACITY ::
          m.receipts[i].counter == if i < |s.entries| then s.entries[i].received else 0)
    && (forall i | 0 <= i < |s.entries| :: m.receipts[i].last == s.entries[i].last)
  }

  /** The records a receiver's migration leaves load: every receipt, the tail and every queued frame. */
  lemma CopiedLoads(cfg: Config, s: Snap, d: Disk)
    requires SnapFits(cfg.c, Receiver, cfg.device, s) && Copied(d, s)
    ensures |s.entries| <= BINDING_CAPACITY && |s.queue| <= QUEUE_CAPACITY
    ensures
      var live := Live(Reg(d), d.receipts);
      && ReceiptsHealth(cfg.c, Reg(d), d.receipts, BINDING_CAPACITY) == Ready
      && TailOf(0, live, BINDING_CAPACITY) == |s.queue|
      && QueueHealth(cfg.c, Reg(d), live, d.ring, 0, |s.queue|) == Ready
  {
    hide Copied, Live, ReceiptsHealth, QueueHealth, TailOf, Reg;
    SnapEntriesFit(cfg.c, Receiver, cfg.device, s);
    ReceiptsCopiedReady(cfg, s, d, BINDING_CAPACITY);
    TailCopied(cfg, s, d);
    forall i | 0 <= i < |s.queue| ensures ItemHealth(cfg.c, Reg(d), Live(Reg(d), d.receipts), d.ring, i) == Ready {
      ItemCopiedReady(cfg, s, d, i);
    }
    hide SnapFits, ItemHealth;
    QueueReady(cfg.c, Reg(d), Live(Reg(d), d.receipts), d.ring, 0, |s.queue|);
  }

  lemma CopiedReceiver(cfg: Config, s: Snap, d: Disk)
    requires SnapFits(cfg.c, Receiver, cfg.device, s) && cfg.role.Receiver? && Copied(d, s)
    ensures
      var m := LoadReceiver(cfg, d);
      && m.health == Ready && m.registry == NewRegistry(s) && m.receipts == Live(Reg(d), d.receipts)
      && m.head == 0 && m.tail == |s.queue|
  {
    SnapEntriesFit(cfg.c, Receiver, cfg.device, s);
    CopiedLoads(cfg, s, d);
    CopiedParts(d, s);
    hide SnapFits, Copied, Live, ReceiptsHealth, QueueHealth, TailOf, CountsOf, NewRegistry;
  }

  lemma MigratedReceiver(cfg: Config, s: Snap, d: Disk)
    requires SnapFits(cfg.c, Receiver, cfg.device, s) && cfg.role.Receiver? && Copied(d, s) && OnePreparedEach(s)
    ensures LoadDisk(cfg, d).health == Ready && SameState(LoadDisk(cfg, d), s) && SameQueue(LoadDisk(cfg, d), d, s)
  {
    hide SnapFits, Live, LoadDisk, LoadReceiver, Copied, NewRegistry, OnePreparedEach;
    SnapEntriesFit(cfg.c, Receiver, cfg.device, s);
    LoadsAsReceiver(cfg, s, d);
    CopiedReceiver(cfg, s, d);
    LiveCopied(cfg, s, d);
    UnreceivedIsEmpty(cfg.c, s, cfg.device);
    CopiedParts(d, s);
  }

  lemma LoadsAsReceiver(cfg: Config, s: Snap, d: Disk)
    requires SnapFits(cfg.c, Receiver, cfg.device, s) && cfg.role.Receiver? && Copied(d, s) && OnePreparedEach(s)
    ensures LoadDisk(cfg, d) == LoadReceiver(cfg, d)
  {
    SnapEntriesFit(cfg.c, Receiver, cfg.device, s);
    ValidatedIff(cfg, s);
    NewRegistryFits(cfg, s);
    CopiedParts(d, s);
    DeviceNamed(cfg, s);
    hide SnapFits, Copied, Validated, RegistryFits, LoadReceiver, NewRegistry, OnePreparedEach;
  }

  lemma DeviceNamed(cfg: Config, s: Snap)
    requires SnapFits(cfg.c, cfg.role, cfg.device, s)
    ensures cfg.device != 0
  {
    assert OldEntryFits(cfg.c, cfg.role, cfg.device, s.network, s.receiver, s.entries[0]);
  }

  lemma UnreceivedIsEmpty(c: Crypto, s: Snap, device: u64)
    requires SnapFits(c, Receiver, device, s)
    ensures forall i | 0 <= i < |s.entries| :: s.entries[i].received == 0 ==> s.entries[i].last == []
  {
    forall i | 0 <= i < |s.entries| ensures s.entries[i].received == 0 ==> s.entries[i].last == [] {
      assert OldEntryFits(c, Receiver, device, s.network, s.receiver, s.entries[i]);
    }
  }

  /**
   * Any number of interrupted migrations of a decodable snapshot, followed by a completed one,
   * leave a device that mounts exactly when no node has two prepared enrollments; it then
   * has the snapshot's entries, counters, receipts and queue, in the same order.
   */
  lemma MigrationCompletes(cfg: Config, s: Snap, ks: seq<nat>)
    requires SnapFits(cfg.c, cfg.role, cfg.device, s)
    ensures
      var d := ApplyAll(Attempts(OldDevice(s), MigrateWrites(cfg.role, s), ks), MigrateWrites(cfg.role, s));
      var m := LoadDisk(cfg, d);
      && (m.health == Ready <==> OnePreparedEach(s))
      && (m.health == Ready ==> m.registry == NewRegistry(s))
      && (m.health == Ready && cfg.role.Receiver? ==> SameState(m, s) && SameQueue(m, d, s))
  {
    hide SnapFits, MigrateWrites, Attempts, ApplyAll, LoadDisk, SameState, SameQueue, OnePreparedEach;
    AttemptsAbsorbed(OldDevice(s), MigrateWrites(cfg.role, s), ks);
    MigratesOnce(cfg, s);
  }

  /** The same of a migration that was not interrupted. */
  lemma MigratesOnce(cfg: Config, s: Snap)
    requires SnapFits(cfg.c, cfg.role, cfg.device, s)
    ensures |s.entries| <= BINDING_CAPACITY
    ensures
      var d := ApplyAll(OldDevice(s), MigrateWrites(cfg.role, s));
      var m := LoadDisk(cfg, d);
      && (m.health == Ready <==> OnePreparedEach(s))
      && (m.health == Ready ==> m.registry == NewRegistry(s))
      && (m.health == Ready && cfg.role.Receiver? ==> SameState(m, s) && SameQueue(m, d, s))
  {
    var d := ApplyAll(OldDevice(s), MigrateWrites(cfg.role, s));
    SnapEntriesFit(cfg.c, cfg.role, cfg.device, s);
    if cfg.role.Receiver? {
      ReceiverCopied(cfg, s, d);
      if OnePreparedEach(s) {
        hide SnapFits, MigrateWrites, ApplyAll, LoadDisk, OnePreparedEach, SameQueue, Copied, NewRegistry;
        MigratedReceiver(cfg, s, d);
      } else {
        UnvalidatedFails(cfg, s, d);
      }
    } else {
      TransmitterCopied(cfg, s, d);
    }
  }

  lemma ReceiverCopied(cfg: Config, s: Snap, d: Disk)
    requires SnapFits(cfg.c, cfg.role, cfg.device, s) && cfg.role.Receiver?
      && d == ApplyAll(OldDevice(s), MigrateWrites(Receiver, s))
    ensures |s.entries| <= BINDING_CAPACITY && |s.queue| <= QUEUE_CAPACITY && Copied(d, s)
    ensures Reg(d) == NewRegistry(s) && Ret(d) == [] && d.registry.Some?
  {
    SnapEntriesFit(cfg.c, cfg.role, cfg.device, s);
    CopiedByMigration(s);
    CopiedParts(d, s);
  }

  lemma UnvalidatedFails(cfg: Config, s: Snap, d: Disk)
    requires SnapFits(cfg.c, cfg.role, cfg.device, s) && !OnePreparedEach(s) && Reg(d) == NewRegistry(s) && Ret(d) == []
    ensures LoadDisk(cfg, d).health != Ready
  {
    ValidatedIff(cfg, s);
    hide SnapFits, Validated, RegistryFits, LoadReceiver, OnePreparedEach, NewRegistry;
  }

  lemma TransmitterCopied(cfg: Config, s: Snap, d: Disk)
    requires SnapFits(cfg.c, cfg.role, cfg.device, s) && cfg.role.Transmitter?
    requires d == ApplyAll(OldDevice(s), MigrateWrites(Transmitter, s))
    ensures LoadDisk(cfg, d).health == Ready <==> OnePreparedEach(s)
    ensures LoadDisk(cfg, d).health == Ready ==> LoadDisk(cfg, d).registry == NewRegistry(s)
  {
    TransmitterShape(s);
    assert [SaveRegistry(NewRegistry(s))][1..] == [];
    assert Reg(d) == NewRegistry(s) && Ret(d) == [] && d.registry.Some?;
    ValidatedIff(cfg, s);
    NewRegistryFits(cfg, s);
    DeviceNamed(cfg, s);
    hide SnapFits, Validated, RegistryFits, OnePreparedEach, NewRegistry, MigrateWrites, ApplyAll;
  }

  // ------------------------------------------------------------------ the snapshot is erased too early

  /**
   * A mount erases the snapshot as soon as the registry decodes, before the record rules are
   * checked. When two enrollments of one node are prepared, the migrated registry decodes and
   * is refused: the device no longer mounts and the snapshot is gone.
   */
  lemma RefusedAfterErase(cfg: Config, s: Snap)
    requires SnapFits(cfg.c, cfg.role, cfg.device, s) && !OnePreparedEach(s)
    ensures
      var d := ApplyAll(OldDevice(s), MigrateWrites(cfg.role, s));
      && RegistryFits(cfg.role, cfg.device, Reg(d))
      && LoadDisk(cfg, Apply(d, EraseLegacy)).health == Health.Invalid
      && Apply(d, EraseLegacy).legacy.None?
  {
    var d0 := OldDevice(s);
    hide SnapFits, RegistryFits, Validated, OnePreparedEach, CopyWrites, ApplyAll, NewEntries, LoadReceiver;
    ValidatedIff(cfg, s);
    NewRegistryFits(cfg, s);
    CopyWritesOnly(cfg.role, s);
    CopyKeeps(d0, CopyWrites(cfg.role, s));
    ApplyLast(d0, CopyWrites(cfg.role, s), SaveRegistry(NewRegistry(s)));
  }

  /** Such a snapshot: one node enrolled twice, neither activated. */
  function TwicePrepared(receiver: u64, node: u64, first: Key, second: Key): Snap
  {
    Snap(1, 1, receiver, 1,
         [OldEntry(Prepared, node, 1, 0, first, 0, []), OldEntry(Prepared, node, 2, 0, second, 0, [])], [])
  }

  lemma TwicePreparedDecodes(cfg: Config, node: u64, first: Key, second: Key)
    requires cfg.role.Receiver? && cfg.device != 0 && node != 0 && node != cfg.device
    requires first != second && NonZero(first) && NonZero(second)
    ensures SnapFits(cfg.c, cfg.role, cfg.device, TwicePrepared(cfg.device, node, first, second))
    ensures !OnePreparedEach(TwicePrepared(cfg.device, node, first, second))
  {
    var s := TwicePrepared(cfg.device, node, first, second);
    assert s.entries[0].node == s.entries[1].node && s.entries[0].state.Prepared? && s.entries[1].state.Prepared?;
  }

  // ------------------------------------------------------------------ the list of writes

  lemma {:induction false} QueueWritesAt(s: Snap, n: nat)
    requires n <= |s.queue|
    ensures |QueueWrites(s, n)| == n
    ensures forall i | 0 <= i < n :: QueueWrites(s, n)[i] == SaveQueue(NewQueued(s, i))
  {
    if n != 0 {
      QueueWritesAt(s, n - 1);
    }
  }

  /** Where the receipt of a slot stands among the receipt writes. */
  function ReceiptsBefore(s: Snap, n: nat): (k: nat)
    requires n <= |s.entries|
    ensures k == |ReceiptWrites(s, n)|
  {
    |ReceiptWrites(s, n)|
  }

  lemma {:induction false} ReceiptWritesAt(s: Snap, i: nat, n: nat)
    requires i < n <= |s.entries| && s.entries[i].received != 0
    ensures ReceiptsBefore(s, i) < |ReceiptWrites(s, n)|
    ensures ReceiptWrites(s, n)[ReceiptsBefore(s, i)] == SaveReceipt(i, NewReceipt(s, i))
  {
    if i < n - 1 {
      ReceiptWritesAt(s, i, n - 1);
    }
  }

  /** The writes of a receiver's migration: queue, receipts, head, registry. */
  lemma MigrateShape(s: Snap)
    ensures
      var ws, q, r := MigrateWrites(Receiver, s), |s.queue|, ReceiptsBefore(s, |s.entries|);
      && |ws| == q + r + 2
      && (forall i | 0 <= i < q :: ws[i] == SaveQueue(NewQueued(s, i)))
      && (forall i | 0 <= i < |s.entries| && s.entries[i].received != 0 ::
            ReceiptsBefore(s, i) < r && ws[q + ReceiptsBefore(s, i)] == SaveReceipt(i, NewReceipt(s, i)))
      && ws[q + r] == SaveHead(0) && ws[q + r + 1] == SaveRegistry(NewRegistry(s))
  {
    QueueWritesAt(s, |s.queue|);
    forall i | 0 <= i < |s.entries| && s.entries[i].received != 0
      ensures ReceiptsBefore(s, i) < ReceiptsBefore(s, |s.entries|)
      ensures ReceiptWrites(s, |s.entries|)[ReceiptsBefore(s, i)] == SaveReceipt(i, NewReceipt(s, i))
    {
      ReceiptWritesAt(s, i, |s.entries|);
    }
  }

  /** Every record of the migration satisfies its record's rules. */
  lemma MigratedRecordsFit(cfg: Config, s: Snap)
    requires SnapFits(cfg.c, cfg.role, cfg.device, s)
    ensures forall i | 0 <= i < |s.queue| :: QueueFits(NewQueued(s, i))
    ensures |s.entries| <= BINDING_CAPACITY && |s.queue| <= QUEUE_CAPACITY
    ensures forall i | 0 <= i < |s.entries| && s.entries[i].received != 0 :: ReceiptFits(NewReceipt(s, i))
    ensures RegistryFits(cfg.role, cfg.device, NewRegistry(s))
  {
    NewRegistryFits(cfg, s);
    forall i | 0 <= i < |s.queue| ensures QueueFits(NewQueued(s, i)) {
      QueuedEntry(cfg.c, cfg.role, cfg.device, s, i);
    }
    forall i | 0 <= i < |s.entries| && s.entries[i].received != 0 ensures ReceiptFits(NewReceipt(s, i)) {
      assert OldEntryFits(cfg.c, cfg.role, cfg.device, s.network, s.receiver, s.entries[i]);
      OldCounterPositive(cfg.c, s.entries[i], s.network, s.entries[i].last);
    }
  }

  lemma TransmitterShape(s: Snap)
    ensures MigrateWrites(Transmitter, s) == [SaveRegistry(NewRegistry(s))]
  {
  }

  lemma NoneBefore(s: Snap)
    ensures ReceiptsBefore(s, 0) == 0
  {
  }

  lemma OneBefore(s: Snap, slot: nat)
    requires slot < |s.entries|
    ensures ReceiptsBefore(s, slot + 1) == ReceiptsBefore(s, slot) + if s.entries[slot].received != 0 then 1 else 0
  {
  }
}
