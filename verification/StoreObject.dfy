// The store as the object it is: fields updated in place over named records, one atomic write
// at a time. Every method is proved to be a step of the runs in StoreRuns.
module StoreObject {
  import opened Wire
  import opened Protocol
  import opened Codec
  import opened Records
  import opened Snapshot
  import opened Store
  import opened StoreInvariant
  import opened StoreOps
  import opened StoreRuns
  import opened StoreBytes
  import opened StoreFits
  import opened Migration
  import opened MigrationRuns

  /** Named records. A false result is ambiguous: the change may or may not be durable. */
  class RecordStore {
    var blobs: Blobs
    /** Writes and removals that were reported as failed. */
    ghost var faults: nat

    constructor (b: Blobs)
      ensures blobs == b
    {
      blobs := b;
      faults := 0;
    }

    method Read(name: string) returns (found: Option<seq<byte>>)
      ensures found == if name in blobs then Some(blobs[name]) else None
    {
      found := if name in blobs then Some(blobs[name]) else None;
    }

    method Write(name: string, bytes: seq<byte>) returns (ok: bool)
      modifies this
      ensures blobs == old(blobs)[name := bytes] || (!ok && blobs == old(blobs))
      ensures faults == old(faults) + if ok then 0 else 1
    {
      var landed: bool := *;
      ok := *;
      ok := ok && landed;
      faults := faults + if ok then 0 else 1;
      if landed {
        blobs := blobs[name := bytes];
      }
    }

    method Erase(name: string) returns (ok: bool)
      modifies this
      ensures blobs == old(blobs) - {name} || (!ok && blobs == old(blobs))
      ensures faults == old(faults) + if ok then 0 else 1
    {
      var landed: bool := *;
      ok := *;
      ok := ok && landed;
      faults := faults + if ok then 0 else 1;
      if landed {
        blobs := blobs - {name};
      }
    }
  }

  /** What a call may have done: the whole plan, or a durable prefix of it and a latched failure. */
  ghost predicate Followed(cfg: Config, s: State, op: Op, t: State, result: Result)
  {
    || (Step(cfg, s, Finished(op), t) && result == PlanOf(cfg, s.m, s.d, op).result)
    || (result == StorageError && exists k: nat :: Step(cfg, s, Cut(op, k), t))
  }

  /** What a call did when no record write failed. */
  ghost predicate Faultless(cfg: Config, s: State, op: Op, t: State, result: Result)
  {
    Step(cfg, s, Finished(op), t) && result == PlanOf(cfg, s.m, s.d, op).result
  }

  /** The durable state after the first `k` writes of a list. */
  ghost predicate Reached(d0: Disk, h0: History, ws: seq<Write>, k: nat, d: Disk, h: History)
  {
    k <= |ws| && d == ApplyAll(d0, ws[..k]) && h == TrackAll(h0, d0, ws[..k])
  }

  lemma NotStarted(d0: Disk, h0: History, ws: seq<Write>)
    ensures Reached(d0, h0, ws, 0, d0, h0)
  {
    assert ws[..0] == [];
  }

  lemma OneFurther(d0: Disk, h0: History, ws: seq<Write>, k: nat, d: Disk, h: History)
    requires Reached(d0, h0, ws, k, d, h) && k < |ws|
    ensures Reached(d0, h0, ws, k + 1, Apply(d, ws[k]), Track(h, d, ws[k]))
  {
    PrefixStep(d0, h0, ws, k);
  }

  /** What holds when a call begins. */
  lemma Begin(cfg: Config, s: State, op: Op)
    requires SystemInv(cfg, s.m, s.d, s.h)
    requires op.OpPrepare? || op.OpCommit? ==> Allowed(cfg, s.m, s.d, s.h, op)
    ensures Allowed(cfg, s.m, s.d, s.h, op)
    ensures forall w | w in PlanOf(cfg, s.m, s.d, op).writes :: WriteFits(cfg, w)
    ensures Reached(s.d, s.h, PlanOf(cfg, s.m, s.d, op).writes, 0, s.d, s.h)
  {
    assert Allowed(cfg, s.m, s.d, s.h, op);
    hide SystemInv, Allowed, PlanOf, WriteFits;
    PlanFits(cfg, s.m, s.d, s.h, op);
    NotStarted(s.d, s.h, PlanOf(cfg, s.m, s.d, op).writes);
  }

  /** The bytes of one more write. */
  lemma WrittenBytes(cfg: Config, b: Blobs, w: Write, d0: Disk, h0: History, ws: seq<Write>, k: nat, h: History)
    requires k < |ws| && ws[k] == w && WriteFits(cfg, w) && !w.EraseLegacy?
    requires Reached(d0, h0, ws, k, View(cfg, b), h)
    ensures Reached(d0, h0, ws, k + 1, View(cfg, ApplyBytes(cfg, b, w)), Track(h, View(cfg, b), w))
    ensures ApplyBytes(cfg, b, w) == b[NameOf(w) := BytesOf(cfg, w)]
  {
    assert w.SaveReceipt? ==> w.slot < BINDING_CAPACITY;
    hide View, Reached, Track, WriteFits, BytesOf, NameOf;
    BytesAreRecords(cfg, b, w);
    OneFurther(d0, h0, ws, k, View(cfg, b), h);
  }

  /**
   * A call that made the first `k` writes of its plan, and either all of them with the planned
   * result and memory, or latched a failure, is a step of the store and leaves it sound.
   */
  lemma Concluded(cfg: Config, s: State, op: Op, t: State, k: nat, result: Result)
    requires SystemInv(cfg, s.m, s.d, s.h) && Allowed(cfg, s.m, s.d, s.h, op)
    requires Reached(s.d, s.h, PlanOf(cfg, s.m, s.d, op).writes, k, t.d, t.h)
    requires
      var p := PlanOf(cfg, s.m, s.d, op);
      || (k == |p.writes| && t.m == p.after && result == p.result)
      || (t.m.health != Ready && result == StorageError)
    ensures SystemInv(cfg, t.m, t.d, t.h) && Followed(cfg, s, op, t, result)
    ensures
      var p := PlanOf(cfg, s.m, s.d, op);
      k == |p.writes| && t.m == p.after && result == p.result ==> Faultless(cfg, s, op, t, result)
  {
    hide SystemInv, Allowed, PlanOf;
    var p := PlanOf(cfg, s.m, s.d, op);
    if k == |p.writes| && t.m == p.after && result == p.result {
      assert p.writes[..k] == p.writes;
      assert Step(cfg, s, Finished(op), t);
      StepKeeps(cfg, s, Finished(op), t);
    } else {
      assert Step(cfg, s, Cut(op, k), t);
      StepKeeps(cfg, s, Cut(op, k), t);
    }
  }

  // ------------------------------------------------------------------ the first slot that fits

  lemma {:induction false} FindFirst(es: Entries, node: u64, generation: u64, i: nat, n: nat)
    requires i < n <= BINDING_CAPACITY && Find(es, node, generation, i).None? && Holds(es[i], node, generation)
    ensures Find(es, node, generation, n) == Some(i)
  {
    if i < n - 1 {
      FindFirst(es, node, generation, i, n - 1);
    }
  }

  lemma {:induction false} FindActiveFirst(es: Entries, b: Binding, i: nat, n: nat)
    requires i < n <= BINDING_CAPACITY && FindActive(es, b, i).None? && Matches(es[i], b)
    ensures FindActive(es, b, n) == Some(i)
  {
    if i < n - 1 {
      FindActiveFirst(es, b, i, n - 1);
    }
  }

  lemma {:induction false} ReclaimableFirst(m: Mem, i: nat, n: nat)
    requires i < n <= BINDING_CAPACITY && Reclaimable(m, i).None? && IsReclaimable(m, i)
    ensures Reclaimable(m, n) == Some(i)
  {
    if i < n - 1 {
      ReclaimableFirst(m, i, n - 1);
    }
  }

  // ------------------------------------------------------------------ loops over entries and lists

  /** Revokes the node's active entries except slot `keep`; whether there were any. */
  method Supersede(es: Entries, node: u64, keep: int) returns (next: Entries, any: bool)
    ensures next == Superseding(es, node, keep)
    ensures any <==> next != es
  {
    next, any := es, false;
    for i := 0 to BINDING_CAPACITY
      invariant forall j | 0 <= j < i :: next[j] == Superseding(es, node, keep)[j]
      invariant forall j | i <= j < BINDING_CAPACITY :: next[j] == es[j]
      invariant any <==> exists j | 0 <= j < i :: next[j] != es[j]
    {
      if es[i].node == node && es[i].state.Active? && i != keep {
        next := next[i := Revoke(es[i])];
        any := true;
        assert next[i] != es[i];
      }
    }
    assert next == Superseding(es, node, keep);
  }

  method RetiredAlready(l: RetiredList, generation: u64, mark: u64) returns (found: bool)
    ensures found == IsRetired(l, generation, mark)
  {
    for i := 0 to |l|
      invariant forall j | 0 <= j < i :: l[j].generation != generation && l[j].fingerprint != mark
    {
      if l[i].generation == generation || l[i].fingerprint == mark {
        return true;
      }
    }
    return false;
  }

  /** `retire` shifts the list in place when it is full, forgetting the oldest. */
  method RetireInto(l: RetiredList, generation: u64, mark: u64) returns (next: RetiredList)
    ensures next == Retire(l, generation, mark)
  {
    next := l;
    if |l| == RETIRED_CAPACITY {
      for i := 1 to |l|
        invariant |next| == |l|
        invariant forall j | 0 <= j < i - 1 :: next[j] == l[j + 1]
        invariant forall j | i - 1 <= j < |l| :: next[j] == l[j]
      {
        next := next[i - 1 := l[i]];
      }
      next := next[..|l| - 1];
      assert next == l[1..];
    }
    next := next + [Retired(generation, mark)];
  }

  /** The lists `prepare` and `reset` build: retires the credential unless it already is. */
  method RetireIfNew(c: Crypto, l: RetiredList, e: Entry) returns (next: RetiredList)
    ensures next == RetireOnce(c, l, e)
  {
    var mark := c.fingerprint(e.key);
    var already := RetiredAlready(l, e.generation, mark);
    if already {
      return l;
    }
    next := RetireInto(l, e.generation, mark);
  }

  lemma RingLookup(c: Crypto, b: Blobs, sequence: nat)
    ensures sequence % QUEUE_CAPACITY in RingIn(c, b) <==> QueueKey(sequence) in b
    ensures QueueKey(sequence) in b ==> RingIn(c, b)[sequence % QUEUE_CAPACITY] == QueuedIn(c, b[QueueKey(sequence)])
  {
    hide QueuedIn, RecordName;
    var i := sequence % 128;
    assert i % 128 == i && QueueKey(i) == QueueKey(sequence);
  }

  // The plan of each operation.

  lemma ActivatePlanned(cfg: Config, s: State, node: u64, generation: u64)
    ensures PlanOf(cfg, s.m, s.d, OpActivate(node, generation)) == ActivatePlan(s.m, node, generation)
    ensures PlanOf(cfg, s.m, s.d, OpAlongside(node, generation)) == AlongsidePlan(cfg, s.m, node, generation)
    ensures PlanOf(cfg, s.m, s.d, OpRevoke(node, generation)) == RevokePlan(s.m, node, generation)
  {
  }

  lemma PreparePlanned(cfg: Config, s: State, x: Credential)
    ensures PlanOf(cfg, s.m, s.d, OpPrepare(x)) == PreparePlan(cfg, s.m, x)
  {
  }

  lemma ReservePlanned(cfg: Config, s: State, b: Binding)
    ensures PlanOf(cfg, s.m, s.d, OpReserve(b)) == ReservePlan(cfg, s.m, b)
  {
  }

  lemma CommitPlanned(cfg: Config, s: State, b: Binding, expected: u64, receipt: Receipt)
    ensures PlanOf(cfg, s.m, s.d, OpCommit(b, expected, receipt)) == CommitPlan(cfg, s.m, s.d, b, expected, receipt)
  {
  }

  lemma ForwardedPlanned(cfg: Config, s: State, node: u64, generation: u64, counter: u64)
    ensures PlanOf(cfg, s.m, s.d, OpForwarded(node, generation, counter))
         == ForwardedPlan(cfg, s.m, s.d, node, generation, counter)
  {
  }

  lemma ResetPlanned(cfg: Config, s: State, discardQueue: bool)
    ensures PlanOf(cfg, s.m, s.d, OpReset(discardQueue)) == ResetPlan(cfg, s.m, discardQueue)
  {
  }

  lemma PlacedLast(m: Mem, first: Write, slot: nat, x: Credential)
    requires slot < BINDING_CAPACITY
    ensures
      var ws := PrepareAt(m, [first], slot, x).writes;
      |ws| >= 1 && ws[0] == first
  {
  }

  lemma {:induction false} SameMatches(a: Entries, b: Entries, x: Binding, n: nat)
    requires n <= BINDING_CAPACITY && forall i | 0 <= i < BINDING_CAPACITY :: Matches(a[i], x) == Matches(b[i], x)
    ensures FindActive(a, x, n) == FindActive(b, x, n)
  {
    if n != 0 {
      SameMatches(a, b, x, n - 1);
    }
  }

  lemma FrontSlot(m: Mem, d: Disk)
    requires FrontHealth(m, d) == Ready
    ensures m.head % QUEUE_CAPACITY in d.ring && d.ring[m.head % QUEUE_CAPACITY].slot < BINDING_CAPACITY
  {
  }

  /** A front that reads back leaves the store healthy. */
  lemma PeekLeaves(cfg: Config, m: Mem, d: Disk)
    ensures Peek(cfg, m, d).Some? ==> PeekHealth(cfg, m, d) == m.health == Ready
  {
  }

  lemma FrontEnrolled(cfg: Config, m: Mem, d: Disk)
    requires Peek(cfg, m, d).Some?
    ensures Find(m.registry.entries, Peek(cfg, m, d).value.node, Peek(cfg, m, d).value.generation,
                 BINDING_CAPACITY).Some?
  {
    hide Open;
    var r := d.ring[m.head % QUEUE_CAPACITY];
    assert Holds(m.registry.entries[r.slot], Peek(cfg, m, d).value.node, Peek(cfg, m, d).value.generation);
  }

  /** The writes of an acceptance, in order. */
  lemma AcceptWritesAt(m: Mem, before: seq<Write>, slot: nat, b: Binding, receipt: Receipt)
    requires slot < BINDING_CAPACITY
    ensures
      var ws, k := AcceptPlan(m, before, slot, b, receipt).writes, |before|;
      && |ws| >= k + 2 && ws[k] == SaveQueue(ItemOf(m, slot, receipt))
      && ws[k + 1] == SaveReceipt(slot, RecordOf(m, slot, receipt))
      && (Superseding(m.registry.entries, b.node, slot) == m.registry.entries ==> |ws| == k + 2)
      && (Superseding(m.registry.entries, b.node, slot) != m.registry.entries && m.registry.revision != UINT64_MAX ==>
            && |ws| == k + 3
            && ws[k + 2] == Write.SaveRegistry(m.registry.(entries := Superseding(m.registry.entries, b.node, slot),
                                                          revision := m.registry.revision + 1)))
  {
    hide Superseding;
  }

  lemma AcceptAfter(m: Mem, first: Write, slot: nat, b: Binding, receipt: Receipt)
    requires slot < BINDING_CAPACITY
    ensures
      var ws := AcceptPlan(m, [first], slot, b, receipt).writes;
      |ws| >= 1 && ws[0] == first
  {
  }

  lemma ResetWrites(cfg: Config, m: Mem, discardQueue: bool)
    requires m.health == Ready && (Queued(m) == 0 || discardQueue)
    ensures
      var ws := ResetPlan(cfg, m, discardQueue).writes;
      m.registry.revision != UINT64_MAX ==>
        && |ws| >= 2
        && ws[0] == Write.SaveRegistry(m.registry.(entries := AllRevoked(m.registry.entries),
                                                   revision := m.registry.revision + 1))
        && ws[1] == Write.SaveRetired(RetireAll(cfg.c, m.retired, m.registry.entries, BINDING_CAPACITY))
        && (Queued(m) != 0 ==> |ws| >= 3 && ws[2] == Write.SaveHead(m.tail))
  {
    hide AllRevoked, RetireAll;
  }

  // ------------------------------------------------------------------ mount, without the object

  /** `validate`: every pair of entries, active generations per node, and the retired list. */
  method ValidateEntries(cfg: Config, es: Entries, retired: RetiredList) returns (ok: bool)
    ensures ok <==> Validated(cfg, es, retired)
  {
    for i := 0 to BINDING_CAPACITY
      invariant forall k | 0 <= k < i :: EntryValid(cfg, es, retired, k)
    {
      if !es[i].state.Empty? {
        var fine := ValidateEntry(cfg, es, retired, i);
        if !fine {
          ValidatedIsEach(cfg, es, retired);
          return false;
        }
      }
    }
    ValidatedIsEach(cfg, es, retired);
    return true;
  }

  ghost predicate EntryValid(cfg: Config, es: Entries, retired: RetiredList, i: nat)
    requires i < BINDING_CAPACITY
  {
    !es[i].state.Empty? ==>
      && (forall j | 0 <= j < BINDING_CAPACITY && j != i && !es[j].state.Empty? :: Apart(es[i], es[j]))
      && (es[i].state.Active? ==> ActiveOf(es, es[i].node, BINDING_CAPACITY) <= ActiveLimit(cfg.role))
      && (!es[i].state.Revoked? ==> !IsRetired(retired, es[i].generation, cfg.c.fingerprint(es[i].key)))
  }

  lemma ValidatedIsEach(cfg: Config, es: Entries, retired: RetiredList)
    ensures Validated(cfg, es, retired) <==> forall i | 0 <= i < BINDING_CAPACITY :: EntryValid(cfg, es, retired, i)
  {
    if forall i | 0 <= i < BINDING_CAPACITY :: EntryValid(cfg, es, retired, i) {
      forall i, j | 0 <= i < BINDING_CAPACITY && 0 <= j < BINDING_CAPACITY && i != j
        ensures !es[i].state.Empty? && !es[j].state.Empty? ==> Apart(es[i], es[j])
      {
        assert EntryValid(cfg, es, retired, i);
      }
      forall i | 0 <= i < BINDING_CAPACITY
        ensures es[i].state.Active? ==> ActiveOf(es, es[i].node, BINDING_CAPACITY) <= ActiveLimit(cfg.role)
        ensures !es[i].state.Empty? && !es[i].state.Revoked? ==>
          !IsRetired(retired, es[i].generation, cfg.c.fingerprint(es[i].key))
      {
        assert EntryValid(cfg, es, retired, i);
      }
    }
  }

  /** The active entries of the node among the first `n`, leaving out slot `i`. */
  lemma {:induction false} OthersActive(es: Entries, i: nat, n: nat)
    requires i < BINDING_CAPACITY && n <= BINDING_CAPACITY && es[i].state.Active?
    ensures n > i ==> ActiveOf(es, es[i].node, n) >= 1
  {
    if n > i + 1 {
      OthersActive(es, i, n - 1);
    }
  }

  method ValidateEntry(cfg: Config, es: Entries, retired: RetiredList, i: nat) returns (ok: bool)
    requires i < BINDING_CAPACITY && !es[i].state.Empty?
    ensures ok <==> EntryValid(cfg, es, retired, i)
  {
    var e := es[i];
    var active := if e.state.Active? then 1 else 0;
    for j := 0 to BINDING_CAPACITY
      invariant forall k | 0 <= k < j && k != i && !es[k].state.Empty? :: Apart(es[i], es[k])
      invariant e.state.Active? ==> active == ActiveOf(es, e.node, j) + if j <= i then 1 else 0
      invariant !e.state.Active? ==> active == 0
    {
      if j != i && !es[j].state.Empty? {
        if es[j].key == e.key || es[j].generation == e.generation {
          return false;
        }
        if es[j].node == e.node && es[j].state.Prepared? && e.state.Prepared? {
          return false;
        }
        if e.state.Active? && es[j].node == e.node && es[j].state.Active? {
          active := active + 1;
        }
      }
    }
    if active > ActiveLimit(cfg.role) {
      return false;
    }
    if !e.state.Revoked? {
      var gone := RetiredAlready(retired, e.generation, cfg.c.fingerprint(e.key));
      if gone {
        return false;
      }
    }
    return true;
  }

  /** `frameMatches`: the counter of a DATA frame sealed under the entry's key. */
  method FrameMatches(c: Crypto, e: Entry, network: u64, f: Frame) returns (counter: Option<u64>)
    ensures counter == FrameCounter(c, e, network, f)
  {
    hide Open;
    var result, m := RunOpen(c, BindingOf(e, network), f);
    if result != Ok || !m.kind.DataKind? {
      return None;
    }
    return Some(m.counter);
  }

  lemma ReceiptLookup(c: Crypto, b: Blobs, slot: nat)
    requires slot < BINDING_CAPACITY
    ensures slot in ReceiptsIn(c, b) <==> ReceiptKey(slot) in b
    ensures ReceiptKey(slot) in b ==> ReceiptsIn(c, b)[slot] == ReceiptIn(c, b[ReceiptKey(slot)])
  {
    hide ReceiptIn, RecordName;
  }

  /** `loadReceiver` once the head is known. */
  lemma ReceiverLoaded(cfg: Config, d: Disk)
    ensures
      var reg, head := Reg(d), Head(d);
      var h, live := ReceiptsHealth(cfg.c, reg, d.receipts, BINDING_CAPACITY), Live(reg, d.receipts);
      var tail, r := TailOf(head, live, BINDING_CAPACITY), LoadReceiver(cfg, d);
      && tail >= head
      && (head > UINT64_MAX ==> r.health == Corrupt)
      && (head <= UINT64_MAX && h != Ready ==> r.health == h)
      && (head <= UINT64_MAX && h == Ready && tail - head > QUEUE_CAPACITY ==> r.health == Health.Invalid)
      && (head <= UINT64_MAX && h == Ready && tail - head <= QUEUE_CAPACITY ==>
            && r.health == QueueHealth(cfg.c, reg, live, d.ring, head, tail)
            && (r.health == Ready ==> r == Mem(Ready, reg, Ret(d), live, CountsOf(d.ring, head, tail), head, tail, 0)))
  {
    hide ReceiptsHealth, QueueHealth, Live, TailOf, CountsOf;
    TailAboveHead(Head(d), Live(Reg(d), d.receipts), BINDING_CAPACITY);
  }

  lemma {:induction false} FailsWithSlot(c: Crypto, reg: Registry, receipts: map<nat, ReceiptRecord>, slot: nat, n: nat)
    requires slot < n <= BINDING_CAPACITY && ReceiptsHealth(c, reg, receipts, slot) == Ready
    requires SlotHealth(c, reg, receipts, slot) != Ready
    ensures ReceiptsHealth(c, reg, receipts, n) == SlotHealth(c, reg, receipts, slot)
  {
    hide SlotHealth;
    if slot < n - 1 {
      FailsWithSlot(c, reg, receipts, slot, n - 1);
    }
  }

  lemma {:induction false} FailsWithItem(c: Crypto, reg: Registry, live: Receipts, ring: map<nat, QueueRecord>,
                                         lo: nat, s: nat, hi: nat)
    requires lo <= s < hi && QueueHealth(c, reg, live, ring, lo, s) == Ready
      && ItemHealth(c, reg, live, ring, s) != Ready
    ensures QueueHealth(c, reg, live, ring, lo, hi) == ItemHealth(c, reg, live, ring, s)
  {
    hide ItemHealth;
    if s < hi - 1 {
      FailsWithItem(c, reg, live, ring, lo, s, hi - 1);
    }
  }

  lemma CountsNext(ring: map<nat, QueueRecord>, lo: nat, s: nat)
    requires lo <= s && s % QUEUE_CAPACITY in ring && ring[s % QUEUE_CAPACITY].slot < BINDING_CAPACITY
    ensures
      var slot, n := ring[s % QUEUE_CAPACITY].slot, CountsOf(ring, lo, s);
      CountsOf(ring, lo, s + 1) == n[slot := n[slot] + 1]
  {
    var slot, n := ring[s % QUEUE_CAPACITY].slot, CountsOf(ring, lo, s);
    var next := n[slot := n[slot] + 1];
    forall i | 0 <= i < BINDING_CAPACITY ensures CountsOf(ring, lo, s + 1)[i] == next[i] {
    }
  }

  lemma HeadViewed(cfg: Config, b: Blobs)
    ensures Head(View(cfg, b)) == if HEAD_KEY in b then HeadIn(cfg.c, b[HEAD_KEY]) else 0
  {
    hide HeadIn, DecodeRegistry, DecodeSnapshot, ReceiptsIn, RingIn, RetiredIn;
  }

  lemma BadHead(cfg: Config, d: Disk)
    ensures Head(d) > UINT64_MAX ==> LoadReceiver(cfg, d).health == Corrupt
  {
    hide ReceiptsHealth, QueueHealth, Live, TailOf, CountsOf;
  }

  lemma RetiredDecodes(c: Crypto, bytes: seq<byte>)
    ensures DecodeRetired(c, bytes).Some? ==> RetiredIn(c, bytes) == DecodeRetired(c, bytes).value
  {
    hide DecodeRetired;
  }

  lemma RetiredViewed(cfg: Config, b: Blobs)
    ensures Ret(View(cfg, b)) == if RETIRED_KEY in b then RetiredIn(cfg.c, b[RETIRED_KEY]) else []
  {
    hide HeadIn, DecodeRegistry, DecodeSnapshot, ReceiptsIn, RingIn, RetiredIn;
  }

  lemma RegistryViewed(cfg: Config, b: Blobs)
    ensures View(cfg, b).registry.Some? <==> REGISTRY_KEY in b
    ensures REGISTRY_KEY in b ==>
      Reg(View(cfg, b)) == DecodeRegistry(cfg.c, cfg.role, cfg.device, b[REGISTRY_KEY]).registry
    ensures REGISTRY_KEY !in b ==> Reg(View(cfg, b)) == NO_REGISTRY
    ensures REGISTRY_KEY in b && DecodeRegistry(cfg.c, cfg.role, cfg.device, b[REGISTRY_KEY]).health == Ready ==>
      RegistryFits(cfg.role, cfg.device, Reg(View(cfg, b)))
  {
    hide HeadIn, DecodeRegistry, DecodeSnapshot, ReceiptsIn, RingIn, RetiredIn, RegistryFits;
    if REGISTRY_KEY in b && DecodeRegistry(cfg.c, cfg.role, cfg.device, b[REGISTRY_KEY]).health == Ready {
      RegistryInBytes(cfg, b);
    }
  }

  /** Erasing the snapshot record leaves every other record as it is. */
  lemma LegacyErased(cfg: Config, b: Blobs)
    ensures View(cfg, b - {LEGACY_KEY}) == Apply(View(cfg, b), EraseLegacy)
    ensures LoadDisk(cfg, View(cfg, b - {LEGACY_KEY})) == LoadDisk(cfg, View(cfg, b))
    ensures Reg(View(cfg, b - {LEGACY_KEY})) == Reg(View(cfg, b))
    ensures View(cfg, b - {LEGACY_KEY}).registry.Some? <==> View(cfg, b).registry.Some?
  {
    hide View, LoadDisk, Reg;
    assert WriteFits(cfg, EraseLegacy) && ApplyBytes(cfg, b, EraseLegacy) == b - {LEGACY_KEY};
    hide WriteFits, ApplyBytes;
    BytesAreRecords(cfg, b, EraseLegacy);
    LegacyIgnored(cfg, View(cfg, b));
    ErasedAlone(View(cfg, b));
  }

  lemma ErasedAlone(d: Disk)
    ensures Reg(Apply(d, EraseLegacy)) == Reg(d) && Apply(d, EraseLegacy).registry == d.registry
  {
  }

  lemma BytesLoaded(cfg: Config, b: Blobs)
    requires cfg.device != 0
    ensures
      REGISTRY_KEY in b && DecodeRegistry(cfg.c, cfg.role, cfg.device, b[REGISTRY_KEY]).health != Ready ==>
        LoadBytes(cfg, b).health == DecodeRegistry(cfg.c, cfg.role, cfg.device, b[REGISTRY_KEY]).health
    ensures
      (REGISTRY_KEY in b ==> DecodeRegistry(cfg.c, cfg.role, cfg.device, b[REGISTRY_KEY]).health == Ready) ==>
        LoadBytes(cfg, b) == LoadDisk(cfg, View(cfg, b))
  {
    hide View, LoadDisk, DecodeRegistry;
  }

  /** `load` by cases, once the registry decoded. */
  lemma RulesFirst(cfg: Config, d: Disk)
    requires d.registry.Some? ==> RegistryFits(cfg.role, cfg.device, Reg(d))
    ensures !RetiredFits(Ret(d)) ==> LoadDisk(cfg, d).health == Corrupt
    ensures RetiredFits(Ret(d)) && !Validated(cfg, Reg(d).entries, Ret(d)) ==> LoadDisk(cfg, d).health == Health.Invalid
    ensures RetiredFits(Ret(d)) && Validated(cfg, Reg(d).entries, Ret(d)) ==>
      LoadDisk(cfg, d) == if cfg.role.Receiver? then LoadReceiver(cfg, d)
                          else Mem(Ready, Reg(d), Ret(d), NoReceipts(), NoCounts(), 0, 0, 0)
    ensures RetiredFits([])
  {
    hide RegistryFits, Validated, LoadReceiver;
  }

  lemma LoadedOrCleared(cfg: Config, b: Blobs)
    ensures LoadBytes(cfg, b).health != Ready ==> LoadBytes(cfg, b) == Cleared(LoadBytes(cfg, b).health, 0)
    ensures LoadBytes(cfg, b).dropped == 0
    ensures cfg.device == 0 ==> LoadBytes(cfg, b) == Cleared(Identity, 0)
  {
    hide View, DecodeRegistry, RegistryFits, RetiredFits, Validated, ReceiptsHealth, QueueHealth, Live, CountsOf,
      TailOf;
  }

  /**
   * The outcome of mounting a v1 device: a snapshot that does not decode is reported and kept;
   * one that does is copied, up to a failed write, and then the copy is loaded. Once the registry is
   * written the device remembers what the snapshot held.
   */
  ghost predicate MountedOld(cfg: Config, b: Blobs, h: History, d: Disk, t: History, m: Mem, faulted: bool)
    requires LEGACY_KEY in b
  {
    var was := DecodeSnapshot(cfg.c, cfg.role, cfg.device, b[LEGACY_KEY]);
    if was.health != Ready then d == View(cfg, b) && t == h && m == Cleared(was.health, m.dropped)
    else
      DecodedSnapFits(cfg.c, cfg.role, cfg.device, b[LEGACY_KEY]);
      var ws := MigrateWrites(cfg.role, was.snap);
      var copy := ApplyAll(View(cfg, b), ws);
      || (faulted && m == Cleared(WriteError, m.dropped) && t == h
          && exists k: nat :: k < |ws| && d == ApplyAll(View(cfg, b), ws[..k]))
      || (faulted && m == Cleared(WriteError, m.dropped) && t == Past(cfg, was.snap) && d == copy)
      || (m == LoadDisk(cfg, copy).(dropped := m.dropped) && t == Past(cfg, was.snap)
          && (d == copy || d == Apply(copy, EraseLegacy)))
  }

  /** The records of a v1 device with this snapshot, after any interrupted migrations of it. */
  ghost predicate OldRecords(cfg: Config, b: Blobs, snap: Snap)
  {
    && LEGACY_KEY in b && DecodeSnapshot(cfg.c, cfg.role, cfg.device, b[LEGACY_KEY]) == SnapDecoded(Ready, snap)
    && Unmigrated(cfg.role, snap, View(cfg, b))
  }

  lemma OldRecordsKept(cfg: Config, b: Blobs, snap: Snap)
    requires SnapFits(cfg.c, cfg.role, cfg.device, snap) && Unmigrated(cfg.role, snap, View(cfg, b))
    ensures OldRecords(cfg, b, snap) && REGISTRY_KEY !in b && cfg.device != 0
  {
    DeviceNamed(cfg, snap);
    UnmigratedStep(cfg.role, snap, View(cfg, b), 0);
    hide Unmigrated, DecodeRegistry, ReceiptsIn, RingIn, RetiredIn, HeadIn;
    assert LEGACY_KEY in b && DecodeSnapshot(cfg.c, cfg.role, cfg.device, b[LEGACY_KEY]).snap == snap;
  }

  lemma OnlyOneRecord(bytes: seq<byte>)
    ensures
      var b: Blobs := map[LEGACY_KEY := bytes];
      && REGISTRY_KEY !in b && RETIRED_KEY !in b && HEAD_KEY !in b
      && (forall slot: nat | slot < BINDING_CAPACITY :: ReceiptKey(slot) !in b) && (forall i: nat :: QueueKey(i) !in b)
  {
    KeysDistinct();
    forall slot: nat, i: nat | slot < BINDING_CAPACITY
      ensures ReceiptKey(slot) != LEGACY_KEY && QueueKey(i) != LEGACY_KEY
    {
      NamesDistinct(slot, i);
    }
    hide ReceiptKey, QueueKey;
  }

  lemma SnapshotAlone(cfg: Config, bytes: seq<byte>)
    ensures View(cfg, map[LEGACY_KEY := bytes])
         == OldDevice(DecodeSnapshot(cfg.c, cfg.role, cfg.device, bytes).snap)
  {
    OnlyOneRecord(bytes);
    hide DecodeSnapshot, DecodeRegistry, ReceiptIn, QueuedIn, RetiredIn, HeadIn, ReceiptKey, QueueKey;
  }

  /** A device that holds a snapshot and nothing else. */
  lemma OldDeviceRecords(cfg: Config, snap: Snap)
    requires SnapFits(cfg.c, cfg.role, cfg.device, snap)
    ensures FramesFit(snap)
    ensures OldRecords(cfg, map[LEGACY_KEY := EncodeSnapshot(cfg.c, cfg.role, cfg.device, snap)], snap)
  {
    hide SnapFits, DecodeSnapshot, EncodeSnapshot, MigrateWrites, View, FramesFit, ApplyAll;
    SnapEntriesFit(cfg.c, cfg.role, cfg.device, snap);
    SnapshotRoundTrip(cfg.c, cfg.role, cfg.device, snap);
    SnapshotAlone(cfg, EncodeSnapshot(cfg.c, cfg.role, cfg.device, snap));
    assert OldDevice(snap) == Attempts(OldDevice(snap), MigrateWrites(cfg.role, snap), []);
  }

  lemma OldMounts(cfg: Config, b: Blobs, snap: Snap)
    requires OldRecords(cfg, b, snap)
    ensures REGISTRY_KEY !in b && LEGACY_KEY in b && cfg.device != 0
  {
    DecodedSnapFits(cfg.c, cfg.role, cfg.device, b[LEGACY_KEY]);
    hide DecodeSnapshot;
    OldRecordsKept(cfg, b, snap);
  }

  /**
   * A v1 device mounts exactly when no write fails and no node has two prepared enrollments; with
   * keys of distinct marks it is then sound, with the snapshot as its past. After a failed write it is
   * still a v1 device that can be mounted again, or already sound.
   */
  ghost predicate Migrated(cfg: Config, snap: Snap, after: Blobs, t: State, faulted: bool)
  {
    && SnapFits(cfg.c, cfg.role, cfg.device, snap)
    && (t.m.health == Ready <==> t.m.health != WriteError && OnePreparedEach(snap))
    && (t.m.health == WriteError && OnePreparedEach(snap) ==> faulted)
    && (OnePreparedEach(snap) && MarksApart(cfg.c, NewEntries(snap)) ==>
          || (SystemInv(cfg, t.m, t.d, t.h) && t.h == Past(cfg, snap))
          || (t.m.health == WriteError && OldRecords(cfg, after, snap)))
  }

  /** The write of a slot's receipt among those of the migration. */
  lemma ReceiptWriteAt(cfg: Config, snap: Snap, slot: nat)
    requires SnapFits(cfg.c, cfg.role, cfg.device, snap) && cfg.role.Receiver?
    requires slot < |snap.entries| && snap.entries[slot].received != 0
    ensures
      var ws, at := MigrateWrites(Receiver, snap), |snap.queue| + ReceiptsBefore(snap, slot);
      at < |ws| && ws[at] == Write.SaveReceipt(slot, NewReceipt(snap, slot)) && WriteFits(cfg, ws[at])
    ensures slot < BINDING_CAPACITY
  {
    hide SnapFits, MigrateWrites, NewReceipt, ReceiptFits, ReceiptsBefore;
    MigrateShape(snap);
    MigratedRecordsFit(cfg, snap);
  }

  /** A completed copy, loaded or not, is sound. */
  lemma CopySound(cfg: Config, snap: Snap, d: Disk, t: State)
    requires SnapFits(cfg.c, cfg.role, cfg.device, snap) && Unmigrated(cfg.role, snap, d)
    requires OnePreparedEach(snap) && MarksApart(cfg.c, NewEntries(snap)) && t.h == Past(cfg, snap)
    requires
      var copy := ApplyAll(d, MigrateWrites(cfg.role, snap));
      || (t.m.health == WriteError && t.d == copy)
      || (t.m == LoadDisk(cfg, copy).(dropped := t.m.dropped) && (t.d == copy || t.d == Apply(copy, EraseLegacy)))
    ensures SystemInv(cfg, t.m, t.d, t.h)
  {
    hide SnapFits, MigrateWrites, ApplyAll, Unmigrated, OnePreparedEach, MarksApart, Past, Inv, LoadDisk;
    CompletedInv(cfg, snap, d);
    var copy := ApplyAll(d, MigrateWrites(cfg.role, snap));
    if t.m.health == WriteError && t.d == copy {
      assert Agrees(cfg, t.m, t.d, t.h);
    } else {
      Remounted(cfg, State(t.m, copy, t.h), t);
    }
  }

  /** The outcomes of mounting such a device. */
  lemma MountedShape(cfg: Config, b: Blobs, snap: Snap, h: History, d: Disk, t: History, m: Mem, faulted: bool)
    requires OldRecords(cfg, b, snap) && MountedOld(cfg, b, h, d, t, m, faulted)
    ensures SnapFits(cfg.c, cfg.role, cfg.device, snap) && Unmigrated(cfg.role, snap, View(cfg, b))
    ensures
      var ws := MigrateWrites(cfg.role, snap);
      var copy := ApplyAll(View(cfg, b), ws);
      || (faulted && m.health == WriteError && exists k: nat :: k < |ws| && d == ApplyAll(View(cfg, b), ws[..k]))
      || (faulted && m.health == WriteError && t == Past(cfg, snap) && d == copy)
      || (m == LoadDisk(cfg, copy).(dropped := m.dropped) && t == Past(cfg, snap)
          && (d == copy || d == Apply(copy, EraseLegacy)))
  {
    DecodedSnapFits(cfg.c, cfg.role, cfg.device, b[LEGACY_KEY]);
    hide View, DecodeSnapshot, SnapFits, MigrateWrites, ApplyAll, Unmigrated, Past, LoadDisk;
  }

  lemma MountMigrates(cfg: Config, b: Blobs, snap: Snap, h: History, after: Blobs, t: State, faulted: bool)
    requires OldRecords(cfg, b, snap) && LEGACY_KEY in b
    requires MountedOld(cfg, b, h, View(cfg, after), t.h, t.m, faulted) && t.d == View(cfg, after)
    ensures Migrated(cfg, snap, after, t, faulted)
  {
    hide View, DecodeSnapshot, SnapFits, MigrateWrites, ApplyAll, Unmigrated, OnePreparedEach, MarksApart, Past,
      LoadDisk, SystemInv, MountedOld, OldRecords;
    MountedShape(cfg, b, snap, h, t.d, t.h, t.m, faulted);
    var ws, d := MigrateWrites(cfg.role, snap), View(cfg, b);
    UnmigratedStep(cfg.role, snap, d, |ws|);
    MigratesOnce(cfg, snap);
    if OnePreparedEach(snap) && MarksApart(cfg.c, NewEntries(snap)) {
      if k: nat :| k < |ws| && t.d == ApplyAll(d, ws[..k]) && t.m.health == WriteError {
        UnmigratedStep(cfg.role, snap, d, k);
        OldRecordsKept(cfg, after, snap);
      } else {
        CopySound(cfg, snap, d, t);
      }
    }
  }

  lemma CopyReached(d0: Disk, h0: History, ws: seq<Write>, k: nat, d: Disk, h: History)
    requires Reached(d0, h0, ws, k, d, h)
    ensures k <= |ws| && d == ApplyAll(d0, ws[..k]) && (k == |ws| ==> d == ApplyAll(d0, ws))
  {
    assert k == |ws| ==> ws[..k] == ws;
  }

  /** A completed copy is what a mount then loads. */
  lemma CopyLoads(cfg: Config, d0: Disk, snap: Snap, b: Blobs)
    requires SnapFits(cfg.c, cfg.role, cfg.device, snap) && cfg.device != 0
    requires View(cfg, b) == ApplyAll(d0, MigrateWrites(cfg.role, snap))
    ensures LoadBytes(cfg, b) == LoadDisk(cfg, View(cfg, b))
  {
    hide View, SnapFits, RegistryFits, LoadDisk, LoadBytes;
    NewRegistryFits(cfg, snap);
    ApplyLast(d0, CopyWrites(cfg.role, snap), Write.SaveRegistry(NewRegistry(snap)));
    LoadsRecords(cfg, b);
  }

  /** The invariant leaves nothing to migrate. */
  lemma NeedsNoMigration(cfg: Config, b: Blobs, h: History)
    requires Inv(cfg, View(cfg, b), h)
    ensures cfg.device != 0 && (REGISTRY_KEY in b || LEGACY_KEY !in b)
    ensures LoadBytes(cfg, b) == LoadDisk(cfg, View(cfg, b))
  {
    BytesMount(cfg, b, h);
    hide DecodeRegistry, DecodeSnapshot, ReceiptsIn, RingIn, CredentialInv, QueueInv, RegistryFits;
  }

  lemma Remounted(cfg: Config, s: State, t: State)
    requires Inv(cfg, s.d, s.h) && t.h == s.h && t.m == LoadDisk(cfg, s.d).(dropped := t.m.dropped)
    requires t.m.dropped == s.m.dropped && (t.d == s.d || t.d == Apply(s.d, EraseLegacy))
    ensures t.m.health == Ready && SystemInv(cfg, t.m, t.d, t.h) && Step(cfg, s, Remount, t)
  {
    hide SystemInv, Inv, LoadDisk;
    RemountKeeps(cfg, s, t);
  }

  /** The slots among the first `n` that a new generation can use. */
  function UsableSlots(m: Mem, n: nat): nat
    requires n <= BINDING_CAPACITY
  {
    if n == 0 then 0
    else UsableSlots(m, n - 1) + if m.registry.entries[n - 1].state.Empty? || IsReclaimable(m, n - 1) then 1 else 0
  }

  /** `freeSlots`. */
  function FreeSlotsIn(m: Mem): nat { if m.health == Ready then UsableSlots(m, BINDING_CAPACITY) else 0 }

  lemma {:induction false} NoneUsable(m: Mem, n: nat)
    requires n <= BINDING_CAPACITY
    ensures UsableSlots(m, n) == 0 <==> FirstEmpty(m.registry.entries, n).None? && Reclaimable(m, n).None?
  {
    if n != 0 {
      NoneUsable(m, n - 1);
    }
  }

  /** A credential that passes every other check is refused as Full exactly when `freeSlots` is zero. */
  lemma FullIffNoFreeSlots(cfg: Config, m: Mem, x: Credential)
    requires m.health == Ready && WellFormed(cfg, x) && (m.registry.network == 0 || SameNetwork(m.registry, x))
    requires Find(m.registry.entries, x.node, x.generation, BINDING_CAPACITY).None?
    requires !IsRetired(m.retired, x.generation, cfg.c.fingerprint(x.key))
    requires !Clashes(m.registry.entries, x.node, x.generation, x.key)
    ensures PreparePlan(cfg, m, x).result == Full <==> UsableSlots(m, BINDING_CAPACITY) == 0
  {
    NoneUsable(m, BINDING_CAPACITY);
  }

  function BindingsOf(reg: Registry, node: u64, n: nat): seq<Binding>
    requires n <= BINDING_CAPACITY
  {
    if n == 0 then []
    else
      BindingsOf(reg, node, n - 1)
      + if reg.entries[n - 1].node == node && reg.entries[n - 1].state.Active?
        then [BindingOf(reg.entries[n - 1], reg.network)] else []
  }

  /** A receiver tries at most two bindings for a node. */
  lemma {:induction false} BindingsCounted(reg: Registry, node: u64, n: nat)
    requires n <= BINDING_CAPACITY
    ensures |BindingsOf(reg, node, n)| == ActiveOf(reg.entries, node, n)
    ensures forall b | b in BindingsOf(reg, node, n) :: b.node == node && b.network == reg.network && b.active
  {
    if n != 0 {
      BindingsCounted(reg, node, n - 1);
    }
  }

  lemma HeadDecodes(c: Crypto, bytes: seq<byte>)
    ensures DecodeHead(c, bytes).Some? ==> HeadIn(c, bytes) == DecodeHead(c, bytes).value
  {
    hide DecodeHead;
  }

  /** Removing the snapshot changes nothing a mount with a registry reads. */
  lemma LegacyIgnored(cfg: Config, d: Disk)
    ensures LoadDisk(cfg, Apply(d, EraseLegacy)) == LoadDisk(cfg, d)
  {
    hide ReceiptsHealth, QueueHealth, RegistryFits, RetiredFits, Validated, Live, TailOf, CountsOf;
  }

  class PersistentStore {
    const records: RecordStore
    const cfg: Config
    var health: Health
    var registry: Registry
    var retired: RetiredList
    var receipts: Receipts
    var queuedBySlot: Counts
    var head: nat
    var tail: nat
    var dropped: nat
    /** Every accepted sample and departed credential; not stored. */
    ghost var history: History

    ghost function Memory(): Mem
      reads this
    {
      Mem(health, registry, retired, receipts, queuedBySlot, head, tail, dropped)
    }

    ghost function Durable(): Disk
      reads records
    {
      View(cfg, records.blobs)
    }

    ghost function Now(): State
      reads this, records
    {
      State(Memory(), Durable(), history)
    }

    ghost predicate Valid()
      reads this, records
    {
      SystemInv(cfg, Memory(), Durable(), history)
    }

    constructor (store: RecordStore, config: Config, ghost past: History)
      ensures records == store && cfg == config && history == past
      ensures health == Unmounted && dropped == 0
    {
      records := store;
      cfg := config;
      health := Unmounted;
      registry := NO_REGISTRY;
      retired := [];
      receipts := NoReceipts();
      queuedBySlot := NoCounts();
      head := 0;
      tail := 0;
      dropped := 0;
      history := past;
    }

    // ---------------------------------------------------------------- lookups

    /** The slot of an enrollment, in slot order. */
    method FindSlot(node: u64, generation: u64) returns (found: Option<nat>)
      ensures found == Find(registry.entries, node, generation, BINDING_CAPACITY)
    {
      for i := 0 to BINDING_CAPACITY
        invariant Find(registry.entries, node, generation, i) == None
      {
        if Holds(registry.entries[i], node, generation) {
          found := Some(i);
          FindFirst(registry.entries, node, generation, i, BINDING_CAPACITY);
          return;
        }
      }
      return None;
    }

    method AuthorizedSlot(b: Binding) returns (found: Option<nat>)
      ensures found == Authorized(Memory(), b)
    {
      if health != Ready || !b.active || b.network != registry.network {
        return None;
      }
      for i := 0 to BINDING_CAPACITY
        invariant FindActive(registry.entries, b, i) == None
      {
        if Matches(registry.entries[i], b) {
          found := Some(i);
          FindActiveFirst(registry.entries, b, i, BINDING_CAPACITY);
          return;
        }
      }
      return None;
    }

    method ReclaimableSlot() returns (found: Option<nat>)
      ensures found == Reclaimable(Memory(), BINDING_CAPACITY)
    {
      for i := 0 to BINDING_CAPACITY
        invariant Reclaimable(Memory(), i) == None
      {
        if registry.entries[i].state.Revoked? && queuedBySlot[i] == 0 {
          found := Some(i);
          ReclaimableFirst(Memory(), i, BINDING_CAPACITY);
          return;
        }
      }
      return None;
    }

    // ---------------------------------------------------------------- writes

    /** One record write of a plan; the store latches when it fails. */
    method Perform(w: Write, ghost s: State, ghost ws: seq<Write>, ghost k: nat) returns (ok: bool, ghost at: nat)
      requires k < |ws| && ws[k] == w && WriteFits(cfg, w) && !w.EraseLegacy?
      requires w.SaveReceipt? ==> w.slot < BINDING_CAPACITY
      requires Reached(s.d, s.h, ws, k, Durable(), history)
      modifies records, this`history, this`health
      ensures records.faults >= old(records.faults)
      ensures ok ==> at == k + 1 && health == old(health)
      ensures !ok ==> at <= k + 1 && health == WriteError
      ensures records.faults == old(records.faults) + if ok then 0 else 1
      ensures Reached(s.d, s.h, ws, at, Durable(), history)
    {
      hide View, Reached, BytesOf, NameOf, WriteFits, Track;
      ghost var before := records.blobs;
      WrittenBytes(cfg, before, w, s.d, s.h, ws, k, history);
      ghost var landed := Track(history, Durable(), w);
      ok := records.Write(NameOf(w), BytesOf(cfg, w));
      at := k;
      if records.blobs == ApplyBytes(cfg, before, w) {
        history := landed;
        at := k + 1;
      }
      if !ok {
        health := WriteError;
      }
    }

    /** `saveRegistry`: the next revision, unless it would wrap. */
    method SaveRegistry(next: Registry, ghost s: State, ghost ws: seq<Write>, ghost k: nat)
      returns (ok: bool, ghost at: nat)
      requires registry.revision != UINT64_MAX ==>
        k < |ws| && ws[k] == Write.SaveRegistry(next.(revision := registry.revision + 1)) && WriteFits(cfg, ws[k])
      requires Reached(s.d, s.h, ws, k, Durable(), history)
      modifies records, this`history, this`health, this`registry
      ensures records.faults >= old(records.faults)
      ensures ok ==> old(registry.revision) != UINT64_MAX && at == k + 1 && health == old(health)
      ensures ok ==> registry == next.(revision := old(registry.revision) + 1)
      ensures !ok ==> at <= k + 1 && health == WriteError && registry == old(registry)
      ensures old(registry.revision) == UINT64_MAX ==> !ok && at == k && records.faults == old(records.faults)
      ensures old(registry.revision) != UINT64_MAX ==> records.faults == old(records.faults) + if ok then 0 else 1
      ensures Reached(s.d, s.h, ws, at, Durable(), history)
    {
      hide View, Reached, WriteFits;
      at := k;
      if registry.revision == UINT64_MAX {
        health := WriteError;
        return false, k;
      }
      var saved := next.(revision := registry.revision + 1);
      ok, at := Perform(Write.SaveRegistry(saved), s, ws, k);
      if ok {
        registry := saved;
      }
    }

    method SaveRetired(next: RetiredList, ghost s: State, ghost ws: seq<Write>, ghost k: nat)
      returns (ok: bool, ghost at: nat)
      requires k < |ws| && ws[k] == Write.SaveRetired(next) && WriteFits(cfg, ws[k])
      requires Reached(s.d, s.h, ws, k, Durable(), history)
      modifies records, this`history, this`health, this`retired
      ensures records.faults >= old(records.faults)
      ensures ok ==> at == k + 1 && health == old(health) && retired == next
      ensures !ok ==> at <= k + 1 && health == WriteError
      ensures records.faults == old(records.faults) + if ok then 0 else 1
      ensures Reached(s.d, s.h, ws, at, Durable(), history)
    {
      hide View, Reached, WriteFits;
      ok, at := Perform(Write.SaveRetired(next), s, ws, k);
      if ok {
        retired := next;
      }
    }

    method SaveHead(sequence: nat, ghost s: State, ghost ws: seq<Write>, ghost k: nat) returns (ok: bool, ghost at: nat)
      requires k < |ws| && ws[k] == Write.SaveHead(sequence) && WriteFits(cfg, ws[k])
      requires Reached(s.d, s.h, ws, k, Durable(), history)
      modifies records, this`history, this`health, this`head
      ensures records.faults >= old(records.faults)
      ensures ok ==> at == k + 1 && health == old(health) && head == sequence
      ensures !ok ==> at <= k + 1 && health == WriteError
      ensures records.faults == old(records.faults) + if ok then 0 else 1
      ensures Reached(s.d, s.h, ws, at, Durable(), history)
    {
      hide View, Reached, WriteFits;
      ok, at := Perform(Write.SaveHead(sequence), s, ws, k);
      if ok {
        head := sequence;
      }
    }

    // ---------------------------------------------------------------- registry operations

    method Activate(node: u64, generation: u64) returns (result: Result)
      requires Valid()
      modifies this, records
      ensures records.faults >= old(records.faults)
      ensures Valid() && Followed(cfg, old(Now()), OpActivate(node, generation), Now(), result)
      ensures records.faults == old(records.faults) ==>
        Faultless(cfg, old(Now()), OpActivate(node, generation), Now(), result)
    {
      ghost var s, op := Now(), OpActivate(node, generation);
      ActivatePlanned(cfg, s, node, generation);
      hide View, SystemInv, Reached, WriteFits, Superseding, Followed, Faultless, Allowed, PlanOf;
      Begin(cfg, s, op);
      ghost var ws := PlanOf(cfg, s.m, s.d, op).writes;
      ghost var at := 0;
      result := StorageError;
      if health == Ready {
        var found := FindSlot(node, generation);
        if found.None? {
          result := NotFound;
        } else if registry.entries[found.value].state.Active? {
          result := Ok;
        } else if !registry.entries[found.value].state.Prepared? {
          result := Conflict;
        } else {
          var next, any := Supersede(registry.entries, node, -1);
          var ok;
          ok, at := SaveRegistry(registry.(entries := Activated(next, found.value)), s, ws, 0);
          result := if ok then Ok else StorageError;
        }
      }
      Concluded(cfg, s, op, Now(), at, result);
    }

    /** The previous generation to keep: the used active slot with the furthest queue position. */
    method KeepSlot(node: u64) returns (keep: int)
      ensures keep == Keep(Memory(), node, BINDING_CAPACITY)
    {
      keep := -1;
      for i := 0 to BINDING_CAPACITY
        invariant keep == Keep(Memory(), node, i)
      {
        if registry.entries[i].node == node && registry.entries[i].state.Active? && receipts[i].counter != 0 {
          if keep < 0 || receipts[i].through > receipts[keep].through {
            keep := i;
          }
        }
      }
    }

    method ActivateAlongside(node: u64, generation: u64) returns (result: Result)
      requires Valid()
      modifies this, records
      ensures records.faults >= old(records.faults)
      ensures Valid() && Followed(cfg, old(Now()), OpAlongside(node, generation), Now(), result)
      ensures records.faults == old(records.faults) ==>
        Faultless(cfg, old(Now()), OpAlongside(node, generation), Now(), result)
    {
      ghost var s, op := Now(), OpAlongside(node, generation);
      ActivatePlanned(cfg, s, node, generation);
      hide View, SystemInv, Reached, WriteFits, Superseding, Followed, Faultless, Allowed, PlanOf;
      Begin(cfg, s, op);
      ghost var ws := PlanOf(cfg, s.m, s.d, op).writes;
      ghost var at := 0;
      result := StorageError;
      if health == Ready {
        var found := FindSlot(node, generation);
        if !cfg.role.Receiver? {
          result := Result.Invalid;
        } else if found.None? {
          result := NotFound;
        } else if registry.entries[found.value].state.Active? {
          result := Ok;
        } else if !registry.entries[found.value].state.Prepared? {
          result := Conflict;
        } else {
          var keep := KeepSlot(node);
          var next, any := Supersede(registry.entries, node, keep);
          var ok;
          ok, at := SaveRegistry(registry.(entries := Activated(next, found.value)), s, ws, 0);
          result := if ok then Ok else StorageError;
        }
      }
      Concluded(cfg, s, op, Now(), at, result);
    }

    method RevokeGeneration(node: u64, generation: u64) returns (result: Result)
      requires Valid()
      modifies this, records
      ensures records.faults >= old(records.faults)
      ensures Valid() && Followed(cfg, old(Now()), OpRevoke(node, generation), Now(), result)
      ensures records.faults == old(records.faults) ==>
        Faultless(cfg, old(Now()), OpRevoke(node, generation), Now(), result)
    {
      ghost var s, op := Now(), OpRevoke(node, generation);
      ActivatePlanned(cfg, s, node, generation);
      hide View, SystemInv, Reached, WriteFits, Followed, Faultless, Allowed, PlanOf;
      Begin(cfg, s, op);
      ghost var ws := PlanOf(cfg, s.m, s.d, op).writes;
      ghost var at := 0;
      result := StorageError;
      if health == Ready {
        var found := FindSlot(node, generation);
        if found.None? {
          result := NotFound;
        } else if registry.entries[found.value].state.Revoked? {
          result := Ok;
        } else {
          var next := registry.entries[found.value := Revoke(registry.entries[found.value])];
          var ok;
          ok, at := SaveRegistry(registry.(entries := next), s, ws, 0);
          result := if ok then Ok else StorageError;
        }
      }
      Concluded(cfg, s, op, Now(), at, result);
    }

    /** The loop of `prepare`: the first empty slot, unless an enrollment clashes. */
    method EmptySlot(x: Credential) returns (clash: bool, empty: Option<nat>)
      ensures clash == Clashes(registry.entries, x.node, x.generation, x.key)
      ensures !clash ==> empty == FirstEmpty(registry.entries, BINDING_CAPACITY)
    {
      empty := None;
      for i := 0 to BINDING_CAPACITY
        invariant empty == FirstEmpty(registry.entries, i)
        invariant forall j | 0 <= j < i && !registry.entries[j].state.Empty? ::
          && registry.entries[j].key != x.key && registry.entries[j].generation != x.generation
          && !(registry.entries[j].node == x.node && registry.entries[j].state.Prepared?)
      {
        var e := registry.entries[i];
        if e.state.Empty? {
          if empty.None? {
            empty := Some(i);
          }
        } else if e.key == x.key || e.generation == x.generation || (e.node == x.node && e.state.Prepared?) {
          return true, None;
        }
      }
      return false, empty;
    }

    /** The end of `prepare`: the credential takes the slot. */
    method Place(slot: nat, x: Credential, ghost s: State, ghost before: seq<Write>, ghost ws: seq<Write>, ghost k: nat)
      returns (ok: bool, ghost at: nat)
      requires slot < BINDING_CAPACITY && ws == PrepareAt(Memory(), before, slot, x).writes && |before| == k
      requires forall w | w in ws :: WriteFits(cfg, w)
      requires Reached(s.d, s.h, ws, k, Durable(), history)
      modifies this, records
      ensures records.faults >= old(records.faults)
      ensures ok ==> at == |ws| && Memory() == PrepareAt(old(Memory()), before, slot, x).after
      ensures ok ==> PrepareAt(old(Memory()), before, slot, x).result == Ok && records.faults == old(records.faults)
      ensures !ok ==> health == WriteError
      ensures !ok && records.faults == old(records.faults) ==>
        && at == |ws| && Memory() == PrepareAt(old(Memory()), before, slot, x).after
        && PrepareAt(old(Memory()), before, slot, x).result == StorageError
      ensures Reached(s.d, s.h, ws, at, Durable(), history)
    {
      hide View, Reached, WriteFits;
      var next := Registry(registry.revision, x.network, x.receiver, x.profile,
                           registry.entries[slot := Entry(Prepared, x.node, x.generation, 0, x.key)]);
      ok, at := SaveRegistry(next, s, ws, k);
      if ok {
        receipts := receipts[slot := NO_RECEIPT_RECORD];
      }
    }

    method Prepare(x: Credential) returns (result: Result)
      requires Valid() && Allowed(cfg, Memory(), Durable(), history, OpPrepare(x))
      modifies this, records
      ensures records.faults >= old(records.faults)
      ensures Valid() && Followed(cfg, old(Now()), OpPrepare(x), Now(), result)
      ensures records.faults == old(records.faults) ==>
        Faultless(cfg, old(Now()), OpPrepare(x), Now(), result)
    {
      ghost var s, op := Now(), OpPrepare(x);
      PreparePlanned(cfg, s, x);
      hide View, SystemInv, Reached, WriteFits, Followed, Faultless, Allowed, PlanOf, IsRetired, Clashes, WellFormed,
        RetireOnce, PrepareAt;
      Begin(cfg, s, op);
      ghost var ws := PlanOf(cfg, s.m, s.d, op).writes;
      ghost var at := 0;
      result := StorageError;
      if health == Ready {
        if !WellFormed(cfg, x) {
          result := Result.Invalid;
        } else if registry.network != 0 && !SameNetwork(registry, x) {
          result := Conflict;
        } else {
          result, at := PrepareNew(x, s, ws);
        }
      }
      Concluded(cfg, s, op, Now(), at, result);
    }

    /** `prepare` once the credential is well formed and of this network. */
    method PrepareNew(x: Credential, ghost s: State, ghost ws: seq<Write>) returns (result: Result, ghost at: nat)
      requires health == Ready && WellFormed(cfg, x) && (registry.network == 0 || SameNetwork(registry, x))
      requires s.m == Memory() && ws == PreparePlan(cfg, Memory(), x).writes
      requires forall w | w in ws :: WriteFits(cfg, w)
      requires Reached(s.d, s.h, ws, 0, Durable(), history)
      modifies this, records
      ensures records.faults >= old(records.faults)
      ensures Reached(s.d, s.h, ws, at, Durable(), history)
      ensures
        var p := PreparePlan(cfg, old(Memory()), x);
        if records.faults == old(records.faults) then at == |ws| && Memory() == p.after && result == p.result
        else health != Ready && result == StorageError
    {
      hide View, Reached, WriteFits, IsRetired, Clashes, WellFormed, RetireOnce, PrepareAt, SameNetwork;
      at := 0;
      var existing := FindSlot(x.node, x.generation);
      if existing.Some? {
        var e := registry.entries[existing.value];
        result := if e.key == x.key && !e.state.Revoked? then Ok else Conflict;
        return;
      }
      var gone := RetiredAlready(retired, x.generation, cfg.c.fingerprint(x.key));
      if gone {
        return Conflict, 0;
      }
      var clash, empty := EmptySlot(x);
      if clash {
        return Conflict, 0;
      }
      var ok;
      if empty.Some? {
        ok, at := Place(empty.value, x, s, [], ws, 0);
      } else {
        var freed := ReclaimableSlot();
        if freed.None? {
          return Full, 0;
        }
        var list := RetireIfNew(cfg.c, retired, registry.entries[freed.value]);
        PlacedLast(s.m.(retired := list), Write.SaveRetired(list), freed.value, x);
        ok, at := SaveRetired(list, s, ws, 0);
        if ok {
          ok, at := Place(freed.value, x, s, [Write.SaveRetired(list)], ws, 1);
        }
      }
      result := if ok then Ok else StorageError;
    }

    /** `reserve`: a counter no frame was sealed with, durable before it is returned. */
    method Reserve(b: Binding) returns (ok: bool, counter: u64)
      requires Valid()
      modifies this, records
      ensures records.faults >= old(records.faults)
      ensures Valid() && Followed(cfg, old(Now()), OpReserve(b), Now(), if ok then Ok else StorageError)
      ensures records.faults == old(records.faults) ==>
        Faultless(cfg, old(Now()), OpReserve(b), Now(), if ok then Ok else StorageError)
      ensures ok ==> Authorized(Memory(), b).Some? && counter == registry.entries[Authorized(Memory(), b).value].counter
      ensures ok ==> Authorized(old(Memory()), b) == Authorized(Memory(), b)
      ensures ok ==> counter == old(registry.entries)[Authorized(old(Memory()), b).value].counter + 1
      ensures !ok ==> counter == 0
    {
      ghost var s, op := Now(), OpReserve(b);
      ReservePlanned(cfg, s, b);
      hide View, SystemInv, Reached, WriteFits, Followed, Faultless, Allowed, PlanOf;
      Begin(cfg, s, op);
      ghost var ws := PlanOf(cfg, s.m, s.d, op).writes;
      ghost var at := 0;
      ok, counter := false, 0;
      var found := AuthorizedSlot(b);
      if found.Some? && cfg.role.Transmitter? && registry.entries[found.value].counter != UINT64_MAX {
        var e := registry.entries[found.value];
        var next := registry.entries[found.value := e.(counter := e.counter + 1)];
        ok, at := SaveRegistry(registry.(entries := next), s, ws, 0);
        if ok {
          counter := registry.entries[found.value].counter;
          SameMatches(s.m.registry.entries, next, b, BINDING_CAPACITY);
        }
      }
      Concluded(cfg, s, op, Now(), at, if ok then Ok else StorageError);
    }

    // ---------------------------------------------------------------- the queue

    /** `readFront`: the record at the head, read back and checked. */
    method ReadFront() returns (front: Health, record: QueueRecord)
      ensures front == FrontHealth(Memory(), Durable())
      ensures front == Ready ==>
        head % QUEUE_CAPACITY in Durable().ring && record == Durable().ring[head % QUEUE_CAPACITY]
    {
      RingLookup(cfg.c, records.blobs, head);
      hide RingIn, ReceiptsIn, DecodeQueue, DecodeRegistry, DecodeSnapshot, QueueKey, RetiredIn, HeadIn;
      record := BAD_QUEUED;
      var bytes := records.Read(QueueKey(head));
      if bytes.None? {
        return ReadError, record;
      }
      DecodesIffFits(cfg.c, bytes.value);
      var decoded := DecodeQueue(cfg.c, bytes.value);
      if decoded.None? {
        return Corrupt, record;
      }
      record := decoded.value;
      var e := registry.entries[record.slot];
      if record.sequence != head || e.state.Empty? || e.generation != record.generation {
        return Health.Invalid, record;
      }
      return Ready, record;
    }

    /** `peek`: the queue front from storage; an unreadable one latches the store. */
    method PeekFront() returns (sample: Option<QueuedSample>)
      modifies this`health
      ensures sample == Peek(cfg, old(Memory()), Durable())
      ensures Memory() == old(Memory()).(health := PeekHealth(cfg, old(Memory()), Durable()))
    {
      hide View, FrontHealth, Open;
      if health != Ready || tail == head {
        return None;
      }
      var front, record := ReadFront();
      if front != Ready {
        health := front;
        return None;
      }
      FrontSlot(Memory(), Durable());
      var e := registry.entries[record.slot];
      var result, m := RunOpen(cfg.c, BindingOf(e, registry.network), record.frame);
      if result != Ok {
        health := Health.Invalid;
        return None;
      }
      return Some(QueuedSample(e.node, e.generation, m.counter, m.data, record.link));
    }

    method Forwarded(node: u64, generation: u64, counter: u64) returns (result: Result)
      requires Valid()
      modifies this, records
      ensures records.faults >= old(records.faults)
      ensures Valid() && Followed(cfg, old(Now()), OpForwarded(node, generation, counter), Now(), result)
      ensures records.faults == old(records.faults) ==>
        Faultless(cfg, old(Now()), OpForwarded(node, generation, counter), Now(), result)
    {
      ghost var s, op := Now(), OpForwarded(node, generation, counter);
      ForwardedPlanned(cfg, s, node, generation, counter);
      hide View, SystemInv, Reached, WriteFits, Followed, Faultless, Allowed, PlanOf, Peek, PeekHealth;
      Begin(cfg, s, op);
      ghost var ws := PlanOf(cfg, s.m, s.d, op).writes;
      ghost var at := 0;
      result := StorageError;
      if health == Ready {
        PeekLeaves(cfg, s.m, s.d);
        var front := PeekFront();
        if front.None? {
          result := if health == Ready then Conflict else StorageError;
        } else if front.value.node != node || front.value.generation != generation || front.value.counter != counter {
          result := Conflict;
        } else {
          FrontEnrolled(cfg, s.m, s.d);
          var slot := FindSlot(node, generation);
          var ok;
          ok, at := SaveHead(head + 1, s, ws, 0);
          if ok {
            queuedBySlot := queuedBySlot[slot.value := Less(queuedBySlot[slot.value])];
            result := Ok;
          }
        }
      }
      Concluded(cfg, s, op, Now(), at, result);
    }

    /** `load`: the receipt of an authorized binding. */
    method LoadReceipt(b: Binding) returns (found: bool, receipt: ReceiptRecord)
      ensures found <==> Authorized(Memory(), b).Some? && cfg.role.Receiver?
      ensures found ==> receipt == receipts[Authorized(Memory(), b).value]
    {
      receipt := NO_RECEIPT_RECORD;
      var slot := AuthorizedSlot(b);
      if slot.None? || !cfg.role.Receiver? {
        return false, receipt;
      }
      return true, receipts[slot.value];
    }

    /** The queue record, then the receipt that commits it. */
    method AcceptRecords(slot: nat, receipt: Receipt, ghost s: State, ghost ws: seq<Write>, ghost k: nat)
      returns (ok: bool, ghost at: nat)
      requires slot < BINDING_CAPACITY && |ws| >= k + 2 && ws[k] == SaveQueue(ItemOf(Memory(), slot, receipt))
      requires ws[k + 1] == SaveReceipt(slot, RecordOf(Memory(), slot, receipt))
      requires WriteFits(cfg, ws[k]) && WriteFits(cfg, ws[k + 1])
      requires Reached(s.d, s.h, ws, k, Durable(), history)
      modifies this, records
      ensures records.faults >= old(records.faults)
      ensures Reached(s.d, s.h, ws, at, Durable(), history)
      ensures ok ==> at == k + 2 && Memory() == Received(old(Memory()), slot, receipt)
      ensures !ok ==> health != Ready
      ensures ok <==> records.faults == old(records.faults)
    {
      hide View, Reached, WriteFits;
      var generation := registry.entries[slot].generation;
      var item := QueueRecord(tail, generation, slot, receipt.last, NormalLink(receipt.link));
      ok, at := Perform(Write.SaveQueue(item), s, ws, k);
      if !ok {
        return;
      }
      var record := ReceiptRecord(generation, tail + 1, receipt.counter, receipt.last, receipt.ackPower);
      ok, at := Perform(Write.SaveReceipt(slot, record), s, ws, k + 1);
      if !ok {
        return;
      }
      receipts := receipts[slot := record];
      tail := tail + 1;
      queuedBySlot := queuedBySlot[slot := queuedBySlot[slot] + 1];
    }

    /** The end of `commit`: queue record, receipt, then the node's other generations. */
    method Accept(slot: nat, b: Binding, receipt: Receipt, ghost s: State, ghost before: seq<Write>,
                  ghost ws: seq<Write>, ghost k: nat)
      returns (result: Result, ghost at: nat)
      requires slot < BINDING_CAPACITY && health == Ready
      requires ws == AcceptPlan(Memory(), before, slot, b, receipt).writes && |before| == k
      requires forall w | w in ws :: WriteFits(cfg, w)
      requires Reached(s.d, s.h, ws, k, Durable(), history)
      modifies this, records
      ensures records.faults >= old(records.faults)
      ensures Reached(s.d, s.h, ws, at, Durable(), history)
      ensures
        var p := AcceptPlan(old(Memory()), before, slot, b, receipt);
        if records.faults == old(records.faults) then at == |ws| && Memory() == p.after && result == p.result
        else health != Ready && result == StorageError
    {
      hide View, Reached, WriteFits, Superseding, ItemOf, RecordOf, NormalLink;
      AcceptWritesAt(Memory(), before, slot, b, receipt);
      var ok;
      ok, at := AcceptRecords(slot, receipt, s, ws, k);
      if !ok {
        return StorageError, at;
      }
      var next, superseded := Supersede(registry.entries, b.node, slot);
      if superseded {
        ok, at := SaveRegistry(registry.(entries := next), s, ws, k + 2);
        if !ok {
          return StorageError, at;
        }
      }
      return Ok, at;
    }

    /** `commit`: the sample is durable, in the queue and in its receipt, before Ok is returned. */
    method Commit(b: Binding, expected: u64, receipt: Receipt) returns (result: Result)
      requires Valid() && Allowed(cfg, Memory(), Durable(), history, OpCommit(b, expected, receipt))
      modifies this, records
      ensures records.faults >= old(records.faults)
      ensures Valid() && Followed(cfg, old(Now()), OpCommit(b, expected, receipt), Now(), result)
      ensures records.faults == old(records.faults) ==>
        Faultless(cfg, old(Now()), OpCommit(b, expected, receipt), Now(), result)
    {
      ghost var s, op := Now(), OpCommit(b, expected, receipt);
      CommitPlanned(cfg, s, b, expected, receipt);
      hide View, SystemInv, Reached, WriteFits, Followed, Faultless, Allowed, PlanOf, Open, FrontHealth, AcceptPlan;
      Begin(cfg, s, op);
      ghost var ws := PlanOf(cfg, s.m, s.d, op).writes;
      ghost var at := 0;
      result := StorageError;
      if health == Ready {
        var found := AuthorizedSlot(b);
        if found.None? || !cfg.role.Receiver? {
          result := Unauthorized;
        } else if receipts[found.value].counter != expected {
          result := Conflict;
        } else {
          var decoded, m := RunOpen(cfg.c, b, receipt.last);
          if decoded != Ok || !m.kind.DataKind? || m.counter != receipt.counter || m.counter <= expected {
            result := Result.Invalid;
          } else {
            result, at := CommitNew(found.value, b, expected, receipt, s, ws);
          }
        }
      }
      Concluded(cfg, s, op, Now(), at, result);
    }

    /** `commit` after its checks: a full queue gives up its oldest sample first. */
    method CommitNew(slot: nat, b: Binding, expected: u64, receipt: Receipt, ghost s: State, ghost ws: seq<Write>)
      returns (result: Result, ghost at: nat)
      requires health == Ready && cfg.role.Receiver? && Authorized(Memory(), b) == Some(slot)
      requires receipts[slot].counter == expected && Acceptable(cfg.c, b, expected, receipt)
      requires s == Now() && ws == CommitPlan(cfg, Memory(), Durable(), b, expected, receipt).writes
      requires forall w | w in ws :: WriteFits(cfg, w)
      requires Reached(s.d, s.h, ws, 0, Durable(), history)
      modifies this, records
      ensures records.faults >= old(records.faults)
      ensures Reached(s.d, s.h, ws, at, Durable(), history)
      ensures
        var p := CommitPlan(cfg, s.m, s.d, b, expected, receipt);
        if records.faults == old(records.faults) then at == |ws| && Memory() == p.after && result == p.result
        else health != Ready && result == StorageError
    {
      hide View, Reached, WriteFits, Open, FrontHealth, AcceptPlan, Acceptable;
      at := 0;
      if tail - head == QUEUE_CAPACITY {
        var front, oldest := ReadFront();
        if front != Ready {
          health := front;
          return StorageError, 0;
        }
        FrontSlot(Memory(), Durable());
        ghost var evicted := Evicted(Memory(), oldest.slot);
        AcceptAfter(evicted, Write.SaveHead(head + 1), slot, b, receipt);
        var ok;
        ok, at := SaveHead(head + 1, s, ws, 0);
        if !ok {
          return StorageError, at;
        }
        queuedBySlot := queuedBySlot[oldest.slot := Less(queuedBySlot[oldest.slot])];
        dropped := dropped + 1;
        result, at := Accept(slot, b, receipt, s, [Write.SaveHead(head)], ws, 1);
      } else {
        result, at := Accept(slot, b, receipt, s, [], ws, 0);
      }
    }

    // ---------------------------------------------------------------- reset

    /** The loop of `reset`: every enrollment revoked and retired. */
    method RetireEverything() returns (entries: Entries, list: RetiredList)
      ensures entries == AllRevoked(registry.entries)
      ensures list == RetireAll(cfg.c, retired, registry.entries, BINDING_CAPACITY)
    {
      entries, list := registry.entries, retired;
      for i := 0 to BINDING_CAPACITY
        invariant forall j | 0 <= j < i :: entries[j] == AllRevoked(registry.entries)[j]
        invariant forall j | i <= j < BINDING_CAPACITY :: entries[j] == registry.entries[j]
        invariant list == RetireAll(cfg.c, retired, registry.entries, i)
      {
        if !registry.entries[i].state.Empty? {
          entries := entries[i := Revoke(registry.entries[i])];
          list := RetireIfNew(cfg.c, list, registry.entries[i]);
        }
      }
      assert entries == AllRevoked(registry.entries);
    }

    method Reset(discardQueue: bool) returns (result: Result)
      requires Valid()
      modifies this, records
      ensures records.faults >= old(records.faults)
      ensures Valid() && Followed(cfg, old(Now()), OpReset(discardQueue), Now(), result)
      ensures records.faults == old(records.faults) ==>
        Faultless(cfg, old(Now()), OpReset(discardQueue), Now(), result)
    {
      ghost var s, op := Now(), OpReset(discardQueue);
      ResetPlanned(cfg, s, discardQueue);
      hide View, SystemInv, Reached, WriteFits, Followed, Faultless, Allowed, PlanOf, AllRevoked, RetireAll;
      Begin(cfg, s, op);
      ghost var ws := PlanOf(cfg, s.m, s.d, op).writes;
      ghost var at := 0;
      result := StorageError;
      if health == Ready {
        if tail != head && !discardQueue {
          result := Conflict;
        } else {
          result, at := ResetNow(discardQueue, s, ws);
        }
      }
      Concluded(cfg, s, op, Now(), at, result);
    }

    /** The first writes of a reset: revoke, retire, drop the queue. */
    method RetireStored(list: RetiredList, entries: Entries, ghost s: State, ghost ws: seq<Write>)
      returns (ok: bool, ghost at: nat)
      requires registry.revision != UINT64_MAX ==>
        && |ws| >= 2 && ws[0] == Write.SaveRegistry(registry.(entries := entries, revision := registry.revision + 1))
        && ws[1] == Write.SaveRetired(list) && (tail != head ==> |ws| >= 3 && ws[2] == Write.SaveHead(tail))
      requires forall w | w in ws :: WriteFits(cfg, w)
      requires Reached(s.d, s.h, ws, 0, Durable(), history)
      modifies records, this`history, this`health, this`registry, this`retired, this`head
      ensures records.faults >= old(records.faults)
      ensures Reached(s.d, s.h, ws, at, Durable(), history)
      ensures ok ==> at == (if tail != old(head) then 3 else 2) && head == tail && health == old(health)
      ensures ok ==> old(registry.revision) != UINT64_MAX && retired == list
      ensures ok ==> registry == old(registry).(entries := entries, revision := old(registry.revision) + 1)
      ensures !ok ==> health == WriteError
      ensures ok ==> records.faults == old(records.faults)
      ensures !ok && records.faults == old(records.faults) ==>
        && at == 0 && old(registry.revision) == UINT64_MAX
        && registry == old(registry) && retired == old(retired) && head == old(head)
    {
      hide View, Reached, WriteFits;
      ok, at := SaveRegistry(registry.(entries := entries), s, ws, 0);
      if ok {
        ok, at := SaveRetired(list, s, ws, 1);
      }
      if ok && tail != head {
        ok, at := SaveHead(tail, s, ws, 2);
      }
    }

    method ResetNow(discardQueue: bool, ghost s: State, ghost ws: seq<Write>) returns (result: Result, ghost at: nat)
      requires health == Ready && (tail == head || discardQueue)
      requires s == Now() && ws == ResetPlan(cfg, Memory(), discardQueue).writes
      requires forall w | w in ws :: WriteFits(cfg, w)
      requires Reached(s.d, s.h, ws, 0, Durable(), history)
      modifies this, records
      ensures records.faults >= old(records.faults)
      ensures Reached(s.d, s.h, ws, at, Durable(), history)
      ensures
        var p := ResetPlan(cfg, s.m, discardQueue);
        if records.faults == old(records.faults) then at == |ws| && Memory() == p.after && result == p.result
        else health != Ready && result == StorageError
    {
      hide View, Reached, WriteFits, AllRevoked, RetireAll;
      var entries, list := RetireEverything();
      ResetWrites(cfg, Memory(), discardQueue);
      var ok;
      ok, at := RetireStored(list, entries, s, ws);
      if !ok {
        return StorageError, at;
      }
      ok, at := SaveRegistry(NO_REGISTRY, s, ws, at);
      if !ok {
        return StorageError, at;
      }
      receipts := NoReceipts();
      queuedBySlot := NoCounts();
      return Ok, at;
    }

    // ---------------------------------------------------------------- mount

    /** One slot of `loadReceiver`. */
    method LoadSlot(slot: nat) returns (loaded: Health, receipt: ReceiptRecord)
      requires slot < BINDING_CAPACITY
      ensures loaded == SlotHealth(cfg.c, registry, Durable().receipts, slot)
      ensures loaded == Ready ==>
        receipt == if IsLive(registry, Durable().receipts, slot) then Durable().receipts[slot] else NO_RECEIPT_RECORD
    {
      ReceiptLookup(cfg.c, records.blobs, slot);
      hide ReceiptsIn, RingIn, DecodeRegistry, DecodeSnapshot, DecodeReceipt, ReceiptKey, RetiredIn, HeadIn,
        FrameCounter;
      receipt := NO_RECEIPT_RECORD;
      var e := registry.entries[slot];
      if e.state.Empty? {
        return Ready, receipt;
      }
      var bytes := records.Read(ReceiptKey(slot));
      if bytes.None? {
        return Ready, receipt;
      }
      DecodesIffFits(cfg.c, bytes.value);
      var decoded := DecodeReceipt(cfg.c, bytes.value);
      if decoded.None? {
        return Corrupt, receipt;
      }
      var r := decoded.value;
      if r.generation != e.generation {
        return Ready, receipt;
      }
      if e.state.Prepared? || r.counter == 0 {
        return Health.Invalid, receipt;
      }
      var counter := FrameMatches(cfg.c, e, registry.network, r.last);
      if counter != Some(r.counter) || (FrameVersion(r.last) != WIRE_V2 && r.ackPower != KEEP_POWER) {
        return Health.Invalid, receipt;
      }
      return Ready, r;
    }

    /** One position of the queue in `loadReceiver`. */
    method LoadItem(sequence: nat) returns (loaded: Health, slot: nat)
      ensures loaded == ItemHealth(cfg.c, registry, receipts, Durable().ring, sequence)
      ensures loaded == Ready ==>
        && sequence % QUEUE_CAPACITY in Durable().ring && slot == Durable().ring[sequence % QUEUE_CAPACITY].slot
        && slot < BINDING_CAPACITY
    {
      RingLookup(cfg.c, records.blobs, sequence);
      hide ReceiptsIn, RingIn, DecodeRegistry, DecodeSnapshot, DecodeQueue, QueueKey, RetiredIn, HeadIn, FrameCounter;
      var bytes := records.Read(QueueKey(sequence));
      if bytes.None? {
        return Health.Invalid, 0;
      }
      DecodesIffFits(cfg.c, bytes.value);
      var decoded := DecodeQueue(cfg.c, bytes.value);
      if decoded.None? {
        return Corrupt, 0;
      }
      var r := decoded.value;
      var e := registry.entries[r.slot];
      if r.sequence != sequence || e.state.Empty? || e.state.Prepared? || e.generation != r.generation {
        return Health.Invalid, 0;
      }
      var counter := FrameMatches(cfg.c, e, registry.network, r.frame);
      if counter.None? || counter.value > receipts[r.slot].counter {
        return Health.Invalid, 0;
      }
      return Ready, r.slot;
    }

    /** The receipts and the tail they say. */
    method LoadReceipts() returns (loaded: Health)
      requires receipts == NoReceipts() && tail == head
      modifies this`receipts, this`tail
      ensures loaded == ReceiptsHealth(cfg.c, registry, Durable().receipts, BINDING_CAPACITY)
      ensures loaded == Ready ==> receipts == Live(registry, Durable().receipts)
      ensures loaded == Ready ==> tail == TailOf(head, receipts, BINDING_CAPACITY)
    {
      ghost var live := Live(registry, Durable().receipts);
      hide View, SlotHealth, IsLive;
      for slot := 0 to BINDING_CAPACITY
        invariant ReceiptsHealth(cfg.c, registry, Durable().receipts, slot) == Ready
        invariant forall i | 0 <= i < slot :: receipts[i] == live[i]
        invariant forall i | slot <= i < BINDING_CAPACITY :: receipts[i] == NO_RECEIPT_RECORD
        invariant tail == TailOf(head, live, slot)
      {
        var slotLoaded, receipt := LoadSlot(slot);
        if slotLoaded != Ready {
          FailsWithSlot(cfg.c, registry, Durable().receipts, slot, BINDING_CAPACITY);
          return slotLoaded;
        }
        receipts := receipts[slot := receipt];
        if receipt.through > tail {
          tail := receipt.through;
        }
      }
      assert receipts == live;
      return Ready;
    }

    /** Every sequence of [head, tail) must be a valid queued sample. */
    method LoadQueue() returns (loaded: Health)
      requires head <= tail <= head + QUEUE_CAPACITY && queuedBySlot == NoCounts()
      modifies this`queuedBySlot
      ensures loaded == QueueHealth(cfg.c, registry, receipts, Durable().ring, head, tail)
      ensures loaded == Ready ==> queuedBySlot == CountsOf(Durable().ring, head, tail)
    {
      hide View, ItemHealth;
      EmptyCounts(Durable().ring, head);
      for sequence := head to tail
        invariant QueueHealth(cfg.c, registry, receipts, Durable().ring, head, sequence) == Ready
        invariant queuedBySlot == CountsOf(Durable().ring, head, sequence)
      {
        var itemLoaded, slot := LoadItem(sequence);
        if itemLoaded != Ready {
          FailsWithItem(cfg.c, registry, receipts, Durable().ring, head, sequence, tail);
          return itemLoaded;
        }
        CountsNext(Durable().ring, head, sequence);
        queuedBySlot := queuedBySlot[slot := queuedBySlot[slot] + 1];
      }
      return Ready;
    }

    /** `loadReceiver` after the head. */
    method LoadFromHead() returns (loaded: Health)
      requires registry == Reg(Durable()) && retired == Ret(Durable()) && head == Head(Durable()) <= UINT64_MAX
      requires receipts == NoReceipts() && queuedBySlot == NoCounts() && tail == head
      modifies this`tail, this`receipts, this`queuedBySlot
      ensures loaded == Store.LoadReceiver(cfg, Durable()).health
      ensures loaded == Ready ==> Memory() == Store.LoadReceiver(cfg, Durable()).(health := health, dropped := dropped)
    {
      ReceiverLoaded(cfg, Durable());
      hide View, Live, ReceiptsHealth, QueueHealth, TailOf, CountsOf, Store.LoadReceiver, Head, Reg, Ret;
      loaded := LoadReceipts();
      if loaded != Ready {
        return;
      }
      if tail - head > QUEUE_CAPACITY {
        return Health.Invalid;
      }
      loaded := LoadQueue();
    }

    method LoadReceiver() returns (loaded: Health)
      requires registry == Reg(Durable()) && retired == Ret(Durable())
      requires receipts == NoReceipts() && queuedBySlot == NoCounts() && head == tail == 0
      modifies this`head, this`tail, this`receipts, this`queuedBySlot
      ensures loaded == Store.LoadReceiver(cfg, Durable()).health
      ensures loaded == Ready ==> Memory() == Store.LoadReceiver(cfg, Durable()).(health := health, dropped := dropped)
    {
      HeadViewed(cfg, records.blobs);
      BadHead(cfg, Durable());
      hide View, HeadIn, DecodeHead, Store.LoadReceiver, Head, Reg, Ret;
      var bytes := records.Read(HEAD_KEY);
      if bytes.Some? {
        DecodesIffFits(cfg.c, bytes.value);
        HeadDecodes(cfg.c, bytes.value);
        var decoded := DecodeHead(cfg.c, bytes.value);
        if decoded.None? {
          return Corrupt;
        }
        head := decoded.value;
      }
      tail := head;
      loaded := LoadFromHead();
    }

    // ---------------------------------------------------------------- migration

    /** Copies the queue of a decoded snapshot, from the front. */
    method MigrateQueue(snap: Snap, ghost s: State, ghost ws: seq<Write>) returns (ok: bool, ghost at: nat)
      requires SnapFits(cfg.c, cfg.role, cfg.device, snap) && ws == MigrateWrites(cfg.role, snap) && cfg.role.Receiver?
      requires Reached(s.d, s.h, ws, 0, Durable(), history)
      modifies records, this`history, this`health
      ensures records.faults >= old(records.faults)
      ensures Reached(s.d, s.h, ws, at, Durable(), history)
      ensures ok ==> at == |snap.queue| && health == old(health) && records.faults == old(records.faults)
      ensures !ok ==> health == WriteError && records.faults > old(records.faults)
    {
      hide View, Reached, SnapFits, MigrateWrites, NewQueued, QueueFits, ReceiptFits, RegistryFits;
      MigrateShape(snap);
      MigratedRecordsFit(cfg, snap);
      at := 0;
      for i := 0 to |snap.queue|
        invariant at == i && Reached(s.d, s.h, ws, i, Durable(), history) && health == old(health)
        invariant records.faults == old(records.faults)
      {
        assert ws[i] == Write.SaveQueue(NewQueued(snap, i));
        ok, at := Perform(Write.SaveQueue(NewQueued(snap, i)), s, ws, i);
        if !ok {
          return;
        }
      }
      return true, |snap.queue|;
    }

    /** Copies the receipts, in slot order. */
    method MigrateReceipts(snap: Snap, ghost s: State, ghost ws: seq<Write>) returns (ok: bool, ghost at: nat)
      requires SnapFits(cfg.c, cfg.role, cfg.device, snap) && ws == MigrateWrites(cfg.role, snap) && cfg.role.Receiver?
      requires Reached(s.d, s.h, ws, |snap.queue|, Durable(), history)
      modifies records, this`history, this`health
      ensures records.faults >= old(records.faults)
      ensures Reached(s.d, s.h, ws, at, Durable(), history)
      ensures ok ==> at == |snap.queue| + ReceiptsBefore(snap, |snap.entries|) && health == old(health)
      ensures ok ==> records.faults == old(records.faults)
      ensures !ok ==> health == WriteError && records.faults > old(records.faults)
    {
      hide View, Reached, SnapFits, MigrateWrites, NewReceipt, WriteFits, ReceiptsBefore;
      NoneBefore(snap);
      at := |snap.queue|;
      for slot := 0 to |snap.entries|
        invariant at == |snap.queue| + ReceiptsBefore(snap, slot)
        invariant Reached(s.d, s.h, ws, at, Durable(), history) && health == old(health)
        invariant records.faults == old(records.faults)
      {
        OneBefore(snap, slot);
        if snap.entries[slot].received != 0 {
          ReceiptWriteAt(cfg, snap, slot);
          ok, at := Perform(Write.SaveReceipt(slot, NewReceipt(snap, slot)), s, ws, at);
          if !ok {
            return;
          }
        }
      }
      return true, at;
    }

    /** `migrate`, once the snapshot decoded: the registry is written last. */
    method CopySnapshot(snap: Snap, ghost s: State, ghost ws: seq<Write>) returns (ok: bool, ghost at: nat)
      requires SnapFits(cfg.c, cfg.role, cfg.device, snap) && ws == MigrateWrites(cfg.role, snap)
      requires Reached(s.d, s.h, ws, 0, Durable(), history)
      modifies records, this`history, this`health
      ensures records.faults >= old(records.faults)
      ensures Reached(s.d, s.h, ws, at, Durable(), history)
      ensures ok ==> at == |ws| && health == old(health) && records.faults == old(records.faults)
      ensures !ok ==> health == WriteError && records.faults > old(records.faults)
    {
      hide View, Reached, SnapFits, MigrateWrites, QueueFits, ReceiptFits, RegistryFits, NewRegistry;
      MigrateShape(snap);
      MigratedRecordsFit(cfg, snap);
      TransmitterShape(snap);
      at := 0;
      if cfg.role.Receiver? {
        ok, at := MigrateQueue(snap, s, ws);
        if !ok {
          return;
        }
        ok, at := MigrateReceipts(snap, s, ws);
        if !ok {
          return;
        }
        ok, at := Perform(Write.SaveHead(0), s, ws, at);
        if !ok {
          return;
        }
      }
      ok, at := Perform(Write.SaveRegistry(NewRegistry(snap)), s, ws, at);
    }

    /** `load` of a device that has a registry, or neither registry nor snapshot. */
    method LoadRecords() returns (loaded: Health)
      requires cfg.device != 0 && registry == NO_REGISTRY && retired == []
      requires receipts == NoReceipts() && queuedBySlot == NoCounts() && head == tail == 0
      modifies records, this`registry, this`retired, this`head, this`tail, this`receipts, this`queuedBySlot
      ensures records.faults >= old(records.faults)
      ensures loaded == LoadBytes(cfg, old(records.blobs)).health
      ensures loaded == Ready ==>
        Memory() == LoadBytes(cfg, old(records.blobs)).(health := health, dropped := dropped)
      ensures records.blobs == old(records.blobs) || records.blobs == old(records.blobs) - {LEGACY_KEY}
    {
      hide View, DecodeRegistry, RegistryFits, LoadDisk, LoadBytes, Reg;
      ghost var b := records.blobs;
      RegistryViewed(cfg, b);
      LegacyErased(cfg, b);
      BytesLoaded(cfg, b);
      var bytes := records.Read(REGISTRY_KEY);
      if bytes.Some? {
        var decoded := DecodeRegistry(cfg.c, cfg.role, cfg.device, bytes.value);
        if decoded.health != Ready {
          return decoded.health;
        }
        registry := decoded.registry;
        var _ := records.Erase(LEGACY_KEY);
      }
      loaded := LoadLists();
    }

    /** The rest of `load`: the retired list, the rules across records, the receiver's records. */
    method LoadLists() returns (loaded: Health)
      requires registry == Reg(Durable()) && retired == []
      requires Durable().registry.Some? ==> RegistryFits(cfg.role, cfg.device, Reg(Durable()))
      requires receipts == NoReceipts() && queuedBySlot == NoCounts() && head == tail == 0
      modifies this`retired, this`head, this`tail, this`receipts, this`queuedBySlot
      ensures loaded == LoadDisk(cfg, Durable()).health
      ensures loaded == Ready ==> Memory() == LoadDisk(cfg, Durable()).(health := health, dropped := dropped)
    {
      hide View, RegistryFits, LoadDisk, Store.LoadReceiver, Validated, DecodeRetired, RetiredIn, RetiredFits, Reg, Ret;
      RetiredViewed(cfg, records.blobs);
      RulesFirst(cfg, Durable());
      var bytes := records.Read(RETIRED_KEY);
      if bytes.Some? {
        DecodesIffFits(cfg.c, bytes.value);
        RetiredDecodes(cfg.c, bytes.value);
        var decoded := DecodeRetired(cfg.c, bytes.value);
        if decoded.None? {
          return Corrupt;
        }
        retired := decoded.value;
      }
      var valid := ValidateEntries(cfg, registry.entries, retired);
      if !valid {
        return Health.Invalid;
      }
      if cfg.role.Receiver? {
        loaded := LoadReceiver();
      } else {
        loaded := Ready;
      }
    }

    method Clear()
      modifies this`registry, this`retired, this`receipts, this`queuedBySlot, this`head, this`tail
      ensures Memory() == Cleared(health, dropped)
    {
      registry := NO_REGISTRY;
      retired := [];
      receipts := NoReceipts();
      queuedBySlot := NoCounts();
      head, tail := 0, 0;
    }

    /** `mount` of a device that needs no migration: what its records say, or why not. */
    method MountRecords() returns (ok: bool)
      modifies records, this`health, this`registry, this`retired, this`head, this`tail, this`receipts, this`queuedBySlot
      ensures records.faults >= old(records.faults)
      ensures ok <==> health == Ready
      ensures Memory() == LoadBytes(cfg, old(records.blobs)).(dropped := dropped)
      ensures records.blobs == old(records.blobs) || records.blobs == old(records.blobs) - {LEGACY_KEY}
    {
      hide View, LoadDisk, DecodeRegistry;
      LoadedOrCleared(cfg, records.blobs);
      health := Unmounted;
      Clear();
      if cfg.device == 0 {
        health := Identity;
        return false;
      }
      var loaded := LoadRecords();
      if loaded != Ready {
        Clear();
        health := loaded;
        return false;
      }
      health := Ready;
      return true;
    }

    /** `mount` of a v1 device. */
    method MountOld(bytes: seq<byte>) returns (ok: bool)
      requires cfg.device != 0 && REGISTRY_KEY !in records.blobs
      requires LEGACY_KEY in records.blobs && records.blobs[LEGACY_KEY] == bytes
      modifies this, records
      ensures records.faults >= old(records.faults)
      ensures ok <==> health == Ready
      ensures dropped == old(dropped)
      ensures MountedOld(cfg, old(records.blobs), old(history), Durable(), history, Memory(),
                         records.faults > old(records.faults))
    {
      hide View, LoadDisk, DecodeRegistry, LoadBytes, DecodeSnapshot, Reached, SnapFits, RegistryFits, MigrateWrites;
      health := Unmounted;
      Clear();
      ghost var s := Now();
      var decoded := RunDecodeSnapshot(cfg.c, cfg.role, cfg.device, bytes);
      if decoded.health != Ready {
        health := decoded.health;
        return false;
      }
      DecodedSnapFits(cfg.c, cfg.role, cfg.device, bytes);
      ghost var ws := MigrateWrites(cfg.role, decoded.snap);
      NotStarted(s.d, s.h, ws);
      ghost var at;
      ok, at := CopySnapshot(decoded.snap, s, ws);
      CopyReached(s.d, s.h, ws, at, Durable(), history);
      history := if at < |ws| then s.h else Past(cfg, decoded.snap);
      if !ok {
        return;
      }
      CopyLoads(cfg, s.d, decoded.snap, records.blobs);
      LegacyErased(cfg, records.blobs);
      ok := MountRecords();
    }

    /** `mount`: migrates a v1 device first. */
    method Mount() returns (ok: bool)
      modifies this, records
      ensures records.faults >= old(records.faults)
      ensures ok <==> health == Ready
      ensures dropped == old(dropped)
      ensures old(REGISTRY_KEY in records.blobs || LEGACY_KEY !in records.blobs || cfg.device == 0) ==>
        && history == old(history)
        && Memory() == LoadBytes(cfg, old(records.blobs)).(dropped := dropped)
        && (Durable() == old(Durable()) || Durable() == Apply(old(Durable()), EraseLegacy))
      ensures old(REGISTRY_KEY !in records.blobs && LEGACY_KEY in records.blobs && cfg.device != 0) ==>
        MountedOld(cfg, old(records.blobs), old(history), Durable(), history, Memory(),
                         records.faults > old(records.faults))
      ensures forall snap | old(OldRecords(cfg, records.blobs, snap)) ::
        Migrated(cfg, snap, records.blobs, Now(), records.faults > old(records.faults))
      ensures old(Inv(cfg, Durable(), history)) ==> ok && Valid() && Step(cfg, old(Now()), Remount, Now())
    {
      hide View, LoadDisk, DecodeRegistry, LoadBytes, DecodeSnapshot, MountedOld, Reached, Inv, Step, SystemInv,
        OldRecords, Migrated;
      ghost var b := records.blobs;
      ghost var s := Now();
      LegacyErased(cfg, b);
      var bytes := records.Read(REGISTRY_KEY);
      var legacy := records.Read(LEGACY_KEY);
      if bytes.Some? || legacy.None? || cfg.device == 0 {
        ok := MountRecords();
      } else {
        ok := MountOld(legacy.value);
      }
      if Inv(cfg, s.d, s.h) {
        NeedsNoMigration(cfg, b, s.h);
        Remounted(cfg, s, Now());
      }
      forall snap | OldRecords(cfg, b, snap)
        ensures Migrated(cfg, snap, records.blobs, Now(), records.faults > old(records.faults))
      {
        OldMounts(cfg, b, snap);
        MountMigrates(cfg, b, snap, s.h, records.blobs, Now(), records.faults > old(records.faults));
      }
    }

    // ---------------------------------------------------------------- queries

    /** Slots a new generation can use. */
    method FreeSlots() returns (count: nat)
      ensures count == FreeSlotsIn(Memory())
    {
      count := 0;
      if health != Ready {
        return;
      }
      for i := 0 to BINDING_CAPACITY
        invariant count == UsableSlots(Memory(), i)
      {
        var state := registry.entries[i].state;
        if state.Empty? || (state.Revoked? && queuedBySlot[i] == 0) {
          count := count + 1;
        }
      }
    }

    /** Every active binding of a node, in slot order. */
    method Bindings(node: u64) returns (bindings: seq<Binding>)
      ensures bindings == if health == Ready then BindingsOf(registry, node, BINDING_CAPACITY) else []
    {
      bindings := [];
      if health != Ready {
        return;
      }
      for i := 0 to BINDING_CAPACITY
        invariant bindings == BindingsOf(registry, node, i)
      {
        if registry.entries[i].node == node && registry.entries[i].state.Active? {
          bindings := bindings + [BindingOf(registry.entries[i], registry.network)];
        }
      }
    }
  }
}
