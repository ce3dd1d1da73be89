// What PersistentStore keeps, what a mount reads back, and what each operation writes.
// Every operation is a plan: an ordered list of atomic record writes, a result and the
// memory state once all of them are durable. A power cut leaves a prefix of the plan.
module Store {
  import opened Wire
  import opened Protocol
  import opened Codec
  import opened Records
  import opened Snapshot

  datatype Config = Config(c: Crypto, role: Role, device: u64)

  type Receipts = r: seq<ReceiptRecord> | |r| == BINDING_CAPACITY witness NoReceipts()

  type Counts = n: seq<nat> | |n| == BINDING_CAPACITY witness NoCounts()

  function NoReceipts(): (r: seq<ReceiptRecord>)
    ensures |r| == BINDING_CAPACITY && forall i :: 0 <= i < |r| ==> r[i] == NO_RECEIPT_RECORD
  {
    seq(BINDING_CAPACITY, i => NO_RECEIPT_RECORD)
  }

  function NoCounts(): (n: seq<nat>)
    ensures |n| == BINDING_CAPACITY && forall i :: 0 <= i < |n| ==> n[i] == 0
  {
    seq(BINDING_CAPACITY, i => 0)
  }

  /** The named records, each replaced as a whole. */
  datatype Disk = Disk(
    registry: Option<Registry>, retired: Option<RetiredList>, head: Option<nat>,
    receipts: map<nat, ReceiptRecord>, ring: map<nat, QueueRecord>, legacy: Option<Snap>)

  datatype Write =
    | SaveRegistry(registry: Registry)
    | SaveRetired(retired: RetiredList)
    | SaveHead(sequence: nat)
    | SaveQueue(record: QueueRecord)
    | SaveReceipt(slot: nat, receipt: ReceiptRecord)
    | EraseLegacy

  /** One atomic record write. Queue records share the ring by sequence modulo its size. */
  function Apply(d: Disk, w: Write): Disk
  {
    match w
    case SaveRegistry(r) => d.(registry := Some(r))
    case SaveRetired(l) => d.(retired := Some(l))
    case SaveHead(n) => d.(head := Some(n))
    case SaveQueue(q) => d.(ring := d.ring[q.sequence % QUEUE_CAPACITY := q])
    case SaveReceipt(slot, r) => d.(receipts := d.receipts[slot := r])
    case EraseLegacy => d.(legacy := None)
  }

  function ApplyAll(d: Disk, ws: seq<Write>): Disk
    decreases ws
  {
    if ws == [] then d else ApplyAll(Apply(d, ws[0]), ws[1..])
  }

  /** The fields of the class that are recovered at mount, and `dropped_`, which is not. */
  datatype Mem = Mem(
    health: Health, registry: Registry, retired: RetiredList, receipts: Receipts,
    queuedBySlot: Counts, head: nat, tail: nat, dropped: nat)

  function Cleared(health: Health, dropped: nat): Mem
  {
    Mem(health, NO_REGISTRY, [], NoReceipts(), NoCounts(), 0, 0, dropped)
  }

  function Queued(m: Mem): int { m.tail - m.head }

  // ------------------------------------------------------------------ rules across records

  function BindingOf(e: Entry, network: u64): Binding { Binding(network, e.node, e.key, true) }

  /** The counter of a DATA frame that authenticates as the entry's, else None. */
  ghost function FrameCounter(c: Crypto, e: Entry, network: u64, f: Frame): Option<u64>
  {
    match Open(c, BindingOf(e, network), f)
    case Done(m) => if m.kind.DataKind? then Some(m.counter) else None
    case Failed(_) => None
  }

  predicate IsRetired(l: seq<Retired>, generation: u64, mark: u64)
  {
    exists i :: 0 <= i < |l| && (l[i].generation == generation || l[i].fingerprint == mark)
  }

  /** Appends; when full, the oldest retirement is forgotten. */
  function Retire(l: RetiredList, generation: u64, mark: u64): RetiredList
  {
    (if |l| == RETIRED_CAPACITY then l[1..] else l) + [Retired(generation, mark)]
  }

  function RetireOnce(c: Crypto, l: RetiredList, e: Entry): RetiredList
  {
    if IsRetired(l, e.generation, c.fingerprint(e.key)) then l
    else Retire(l, e.generation, c.fingerprint(e.key))
  }

  function ActiveOf(es: Entries, node: u64, n: nat): nat
    requires n <= BINDING_CAPACITY
  {
    if n == 0 then 0
    else ActiveOf(es, node, n - 1) + if es[n - 1].state.Active? && es[n - 1].node == node then 1 else 0
  }

  function ActiveLimit(role: Role): nat { if role.Receiver? then 2 else 1 }

  predicate Apart(a: Entry, b: Entry)
  {
    && a.key != b.key && a.generation != b.generation
    && !(a.node == b.node && a.state.Prepared? && b.state.Prepared?)
  }

  /** `validate`: unique credentials, active generations per node and the retired list. */
  ghost predicate Validated(cfg: Config, es: Entries, retired: seq<Retired>)
  {
    && (forall i, j | 0 <= i < BINDING_CAPACITY && 0 <= j < BINDING_CAPACITY && i != j ::
          !es[i].state.Empty? && !es[j].state.Empty? ==> Apart(es[i], es[j]))
    && (forall i :: 0 <= i < BINDING_CAPACITY && es[i].state.Active? ==>
          ActiveOf(es, es[i].node, BINDING_CAPACITY) <= ActiveLimit(cfg.role))
    && (forall i :: 0 <= i < BINDING_CAPACITY && !es[i].state.Empty? && !es[i].state.Revoked? ==>
          !IsRetired(retired, es[i].generation, cfg.c.fingerprint(es[i].key)))
  }

  // ------------------------------------------------------------------ load

  predicate IsLive(reg: Registry, receipts: map<nat, ReceiptRecord>, slot: nat)
    requires slot < BINDING_CAPACITY
  {
    && !reg.entries[slot].state.Empty? && slot in receipts
    && receipts[slot].generation == reg.entries[slot].generation
  }

  ghost predicate ReceiptAuthentic(c: Crypto, e: Entry, network: u64, r: ReceiptRecord)
  {
    && !e.state.Prepared? && r.counter != 0
    && FrameCounter(c, e, network, r.last) == Some(r.counter)
    && (FrameVersion(r.last) == WIRE_V2 || r.ackPower == KEEP_POWER)
  }

  function FrameVersion(f: Frame): byte { if |f| > 4 then f[4] else 0 }

  /** Records that no longer decode stop the mount even when they are stale. */
  ghost function SlotHealth(c: Crypto, reg: Registry, receipts: map<nat, ReceiptRecord>, slot: nat): Health
    requires slot < BINDING_CAPACITY
  {
    if reg.entries[slot].state.Empty? || slot !in receipts then Ready
    else if !ReceiptFits(receipts[slot]) then Corrupt
    else if !IsLive(reg, receipts, slot) then Ready
    else if ReceiptAuthentic(c, reg.entries[slot], reg.network, receipts[slot]) then Ready
    else Health.Invalid
  }

  ghost function ReceiptsHealth(c: Crypto, reg: Registry, receipts: map<nat, ReceiptRecord>, n: nat): Health
    requires n <= BINDING_CAPACITY
  {
    if n == 0 then Ready
    else
      var h := ReceiptsHealth(c, reg, receipts, n - 1);
      if h != Ready then h else SlotHealth(c, reg, receipts, n - 1)
  }

  /** The live receipts: one left by a credential that used the slot before is not this entry's. */
  function Live(reg: Registry, receipts: map<nat, ReceiptRecord>): Receipts
  {
    seq(BINDING_CAPACITY, i requires 0 <= i < BINDING_CAPACITY =>
      if IsLive(reg, receipts, i) then receipts[i] else NO_RECEIPT_RECORD)
  }

  /** The recovered tail: the head or the furthest `through` of the first `n` live receipts. */
  function TailOf(head: nat, live: Receipts, n: nat): nat
    requires n <= BINDING_CAPACITY
  {
    if n == 0 then head
    else
      var t := TailOf(head, live, n - 1);
      if live[n - 1].through > t then live[n - 1].through else t
  }

  ghost predicate ItemAuthentic(c: Crypto, reg: Registry, live: Receipts, r: QueueRecord, s: nat)
    requires r.slot < BINDING_CAPACITY
  {
    var e := reg.entries[r.slot];
    var counter := FrameCounter(c, e, reg.network, r.frame);
    && r.sequence == s && (e.state.Active? || e.state.Revoked?) && e.generation == r.generation
    && counter.Some? && counter.value <= live[r.slot].counter
  }

  ghost function ItemHealth(c: Crypto, reg: Registry, live: Receipts, ring: map<nat, QueueRecord>, s: nat): Health
  {
    if s % QUEUE_CAPACITY !in ring then Health.Invalid
    else
      var r := ring[s % QUEUE_CAPACITY];
      if !QueueFits(r) then Corrupt
      else if ItemAuthentic(c, reg, live, r, s) then Ready
      else Health.Invalid
  }

  ghost function QueueHealth(c: Crypto, reg: Registry, live: Receipts, ring: map<nat, QueueRecord>, lo: nat,
                             hi: nat): Health
    requires lo <= hi
  {
    if lo == hi then Ready
    else
      var h := QueueHealth(c, reg, live, ring, lo, hi - 1);
      if h != Ready then h else ItemHealth(c, reg, live, ring, hi - 1)
  }

  function CountIn(ring: map<nat, QueueRecord>, lo: nat, hi: nat, slot: nat): nat
    requires lo <= hi
  {
    if lo == hi then 0
    else
      var i := (hi - 1) % QUEUE_CAPACITY;
      CountIn(ring, lo, hi - 1, slot) + if i in ring && ring[i].slot == slot then 1 else 0
  }

  function CountsOf(ring: map<nat, QueueRecord>, lo: nat, hi: nat): Counts
    requires lo <= hi
  {
    seq(BINDING_CAPACITY, i requires 0 <= i < BINDING_CAPACITY => CountIn(ring, lo, hi, i))
  }

  function Reg(d: Disk): Registry { if d.registry.Some? then d.registry.value else NO_REGISTRY }

  function Ret(d: Disk): RetiredList { if d.retired.Some? then d.retired.value else [] }

  function Head(d: Disk): nat { if d.head.Some? then d.head.value else 0 }

  lemma TailAboveHead(head: nat, live: Receipts, n: nat)
    requires n <= BINDING_CAPACITY
    ensures TailOf(head, live, n) >= head
  {
  }

  ghost function LoadReceiver(cfg: Config, d: Disk): Mem
  {
    var reg, head := Reg(d), Head(d);
    var h := ReceiptsHealth(cfg.c, reg, d.receipts, BINDING_CAPACITY);
    if head > UINT64_MAX then Cleared(Corrupt, 0)
    else if h != Ready then Cleared(h, 0)
    else
      var live := Live(reg, d.receipts);
      var tail := TailOf(head, live, BINDING_CAPACITY);
      TailAboveHead(head, live, BINDING_CAPACITY);
      if tail - head > QUEUE_CAPACITY then Cleared(Health.Invalid, 0)
      else
        var q := QueueHealth(cfg.c, reg, live, d.ring, head, tail);
        if q != Ready then Cleared(q, 0)
        else Mem(Ready, reg, Ret(d), live, CountsOf(d.ring, head, tail), head, tail, 0)
  }

  /** `load` of a device that needs no migration. Its health is Ready exactly when it succeeds. */
  ghost function LoadDisk(cfg: Config, d: Disk): Mem
  {
    if d.registry.Some? && !RegistryFits(cfg.role, cfg.device, Reg(d)) then Cleared(Health.Invalid, 0)
    else if !RetiredFits(Ret(d)) then Cleared(Corrupt, 0)
    else if !Validated(cfg, Reg(d).entries, Ret(d)) then Cleared(Health.Invalid, 0)
    else if cfg.role.Receiver? then LoadReceiver(cfg, d)
    else Mem(Ready, Reg(d), Ret(d), NoReceipts(), NoCounts(), 0, 0, 0)
  }

  // ------------------------------------------------------------------ plans

  datatype Plan = Plan(writes: seq<Write>, result: Result, after: Mem)

  function Refuse(m: Mem, result: Result): Plan { Plan([], result, m) }

  function Broken(m: Mem, writes: seq<Write>): Plan { Plan(writes, StorageError, m.(health := WriteError)) }

  /** `saveRegistry` as the last step: the revision never wraps. */
  function SaveNext(m: Mem, writes: seq<Write>, next: Registry, after: Mem): Plan
  {
    if m.registry.revision == UINT64_MAX then Broken(m, writes)
    else
      var saved := next.(revision := m.registry.revision + 1);
      Plan(writes + [SaveRegistry(saved)], Ok, after.(registry := saved))
  }

  predicate Holds(e: Entry, node: u64, generation: u64)
  {
    !e.state.Empty? && e.node == node && e.generation == generation
  }

  /** `find` over the first `n` slots. */
  function Find(es: Entries, node: u64, generation: u64, n: nat): (r: Option<nat>)
    requires n <= BINDING_CAPACITY
    ensures r.Some? ==> r.value < n && Holds(es[r.value], node, generation)
    ensures r.None? ==> forall i :: 0 <= i < n ==> !Holds(es[i], node, generation)
  {
    if n == 0 then None
    else
      var r := Find(es, node, generation, n - 1);
      if r.Some? then r else if Holds(es[n - 1], node, generation) then Some(n - 1) else None
  }

  function FirstEmpty(es: Entries, n: nat): (r: Option<nat>)
    requires n <= BINDING_CAPACITY
    ensures r.Some? ==> r.value < n && es[r.value].state.Empty?
    ensures r.None? ==> forall i :: 0 <= i < n ==> !es[i].state.Empty?
  {
    if n == 0 then None
    else
      var r := FirstEmpty(es, n - 1);
      if r.Some? then r else if es[n - 1].state.Empty? then Some(n - 1) else None
  }

  predicate IsReclaimable(m: Mem, i: nat)
    requires i < BINDING_CAPACITY
  {
    m.registry.entries[i].state.Revoked? && m.queuedBySlot[i] == 0
  }

  function Reclaimable(m: Mem, n: nat): (r: Option<nat>)
    requires n <= BINDING_CAPACITY
    ensures r.Some? ==> r.value < n && IsReclaimable(m, r.value)
    ensures r.None? ==> forall i :: 0 <= i < n ==> !IsReclaimable(m, i)
  {
    if n == 0 then None
    else
      var r := Reclaimable(m, n - 1);
      if r.Some? then r else if IsReclaimable(m, n - 1) then Some(n - 1) else None
  }

  predicate Clashes(es: Entries, node: u64, generation: u64, key: Key)
  {
    exists i :: 0 <= i < BINDING_CAPACITY && !es[i].state.Empty?
      && (es[i].key == key || es[i].generation == generation || (es[i].node == node && es[i].state.Prepared?))
  }

  datatype Credential = Credential(
    network: u64, receiver: u64, node: u64, generation: u64, key: Key, profile: u16)

  predicate WellFormed(cfg: Config, x: Credential)
  {
    && x.network != 0 && x.receiver != 0 && x.node != 0 && x.generation != 0 && NonZero(x.key)
    && x.receiver != x.node && x.profile == 1
    && (cfg.role.Transmitter? ==> x.node == cfg.device)
    && (cfg.role.Receiver? ==> x.receiver == cfg.device)
  }

  predicate SameNetwork(reg: Registry, x: Credential)
  {
    x.network == reg.network && x.receiver == reg.receiver && x.profile == reg.profile
  }

  function PrepareAt(m: Mem, writes: seq<Write>, slot: nat, x: Credential): Plan
    requires slot < BINDING_CAPACITY
  {
    SaveNext(m, writes,
             Registry(m.registry.revision, x.network, x.receiver, x.profile,
                      m.registry.entries[slot := Entry(Prepared, x.node, x.generation, 0, x.key)]),
             m.(receipts := m.receipts[slot := NO_RECEIPT_RECORD]))
  }

  /** `prepare`: reuses an empty slot, else retires and replaces a revoked one with nothing queued. */
  function PreparePlan(cfg: Config, m: Mem, x: Credential): Plan
  {
    var es := m.registry.entries;
    if m.health != Ready then Refuse(m, StorageError)
    else if !WellFormed(cfg, x) then Refuse(m, Result.Invalid)
    else if m.registry.network != 0 && !SameNetwork(m.registry, x) then Refuse(m, Conflict)
    else
      var existing := Find(es, x.node, x.generation, BINDING_CAPACITY);
      if existing.Some? then
        var e := es[existing.value];
        Refuse(m, if e.key == x.key && !e.state.Revoked? then Ok else Conflict)
      else if IsRetired(m.retired, x.generation, cfg.c.fingerprint(x.key)) then Refuse(m, Conflict)
      else if Clashes(es, x.node, x.generation, x.key) then Refuse(m, Conflict)
      else
        var empty := FirstEmpty(es, BINDING_CAPACITY);
        if empty.Some? then PrepareAt(m, [], empty.value, x)
        else
          var freed := Reclaimable(m, BINDING_CAPACITY);
          if freed.None? then Refuse(m, Full)
          else
            var retired := RetireOnce(cfg.c, m.retired, es[freed.value]);
            PrepareAt(m.(retired := retired), [SaveRetired(retired)], freed.value, x)
  }

  /** Revokes the node's active entries except slot `keep`. */
  function Superseding(es: Entries, node: u64, keep: int): (r: Entries)
    ensures forall i :: 0 <= i < BINDING_CAPACITY ==>
      r[i] == if es[i].node == node && es[i].state.Active? && i != keep then es[i].(state := Revoked) else es[i]
  {
    seq(BINDING_CAPACITY, i requires 0 <= i < BINDING_CAPACITY =>
      if es[i].node == node && es[i].state.Active? && i != keep then Revoke(es[i]) else es[i])
  }

  function Revoke(e: Entry): Entry { Entry(Revoked, e.node, e.generation, e.counter, e.key) }

  function Activated(es: Entries, slot: nat): Entries
    requires slot < BINDING_CAPACITY
  {
    es[slot := es[slot].(state := Active)]
  }

  function ActivatePlan(m: Mem, node: u64, generation: u64): Plan
  {
    var es := m.registry.entries;
    if m.health != Ready then Refuse(m, StorageError)
    else
      var found := Find(es, node, generation, BINDING_CAPACITY);
      if found.None? then Refuse(m, NotFound)
      else if es[found.value].state.Active? then Refuse(m, Ok)
      else if !es[found.value].state.Prepared? then Refuse(m, Conflict)
      else SaveNext(m, [], m.registry.(entries := Activated(Superseding(es, node, -1), found.value)), m)
  }

  predicate Used(m: Mem, node: u64, i: nat)
    requires i < BINDING_CAPACITY
  {
    m.registry.entries[i].node == node && m.registry.entries[i].state.Active? && m.receipts[i].counter != 0
  }

  /** The previous generation to keep: used, active, with the furthest queue position. */
  function Keep(m: Mem, node: u64, n: nat): (r: int)
    requires n <= BINDING_CAPACITY
    ensures -1 <= r < n
    ensures r >= 0 ==> Used(m, node, r)
    ensures r == -1 ==> forall i :: 0 <= i < n ==> !Used(m, node, i)
    ensures r >= 0 ==> forall i :: 0 <= i < n && Used(m, node, i) ==> m.receipts[i].through <= m.receipts[r].through
  {
    if n == 0 then -1
    else
      var k := Keep(m, node, n - 1);
      if Used(m, node, n - 1) && (k < 0 || m.receipts[n - 1].through > m.receipts[k].through) then n - 1 else k
  }

  function AlongsidePlan(cfg: Config, m: Mem, node: u64, generation: u64): Plan
  {
    var es := m.registry.entries;
    if m.health != Ready then Refuse(m, StorageError)
    else if !cfg.role.Receiver? then Refuse(m, Result.Invalid)
    else
      var found := Find(es, node, generation, BINDING_CAPACITY);
      if found.None? then Refuse(m, NotFound)
      else if es[found.value].state.Active? then Refuse(m, Ok)
      else if !es[found.value].state.Prepared? then Refuse(m, Conflict)
      else
        var keep := Keep(m, node, BINDING_CAPACITY);
        SaveNext(m, [], m.registry.(entries := Activated(Superseding(es, node, keep), found.value)), m)
  }

  function RevokePlan(m: Mem, node: u64, generation: u64): Plan
  {
    var es := m.registry.entries;
    if m.health != Ready then Refuse(m, StorageError)
    else
      var found := Find(es, node, generation, BINDING_CAPACITY);
      if found.None? then Refuse(m, NotFound)
      else if es[found.value].state.Revoked? then Refuse(m, Ok)
      else SaveNext(m, [], m.registry.(entries := es[found.value := Revoke(es[found.value])]), m)
  }

  predicate Matches(e: Entry, b: Binding) { e.state.Active? && e.node == b.node && e.key == b.key }

  function FindActive(es: Entries, b: Binding, n: nat): (r: Option<nat>)
    requires n <= BINDING_CAPACITY
    ensures r.Some? ==> r.value < n && Matches(es[r.value], b)
    ensures r.None? ==> forall i :: 0 <= i < n ==> !Matches(es[i], b)
  {
    if n == 0 then None
    else
      var r := FindActive(es, b, n - 1);
      if r.Some? then r else if Matches(es[n - 1], b) then Some(n - 1) else None
  }

  function Authorized(m: Mem, b: Binding): (r: Option<nat>)
    ensures r.Some? ==> r.value < BINDING_CAPACITY && Matches(m.registry.entries[r.value], b)
    ensures r.Some? ==> m.health == Ready && b.active && b.network == m.registry.network
  {
    if m.health != Ready || !b.active || b.network != m.registry.network then None
    else FindActive(m.registry.entries, b, BINDING_CAPACITY)
  }

  /** `reserve`: Ok when a counter was made durable; it is then the entry's counter. */
  function ReservePlan(cfg: Config, m: Mem, b: Binding): Plan
  {
    var found := Authorized(m, b);
    if found.None? || !cfg.role.Transmitter? || m.registry.entries[found.value].counter == UINT64_MAX
    then Refuse(m, StorageError)
    else
      var e := m.registry.entries[found.value];
      SaveNext(m, [], m.registry.(entries := m.registry.entries[found.value := e.(counter := e.counter + 1)]), m)
  }

  /** uint16_t decrement. */
  function Less(n: nat): nat { if n == 0 then 0xffff else n - 1 }

  /** `readFront`: Ready when the front record belongs to an occupied entry of its generation. */
  function FrontHealth(m: Mem, d: Disk): Health
  {
    if m.head % QUEUE_CAPACITY !in d.ring then ReadError
    else
      var r := d.ring[m.head % QUEUE_CAPACITY];
      if !QueueFits(r) then Corrupt
      else if r.sequence != m.head || m.registry.entries[r.slot].state.Empty?
              || m.registry.entries[r.slot].generation != r.generation then Health.Invalid
      else Ready
  }

  function NormalLink(l: Link): Link { if l.known then l else UNKNOWN_LINK }

  /** What remains of a commit once there is room: queue record, receipt, supersession. */
  function AcceptPlan(m: Mem, writes: seq<Write>, slot: nat, b: Binding, receipt: Receipt): Plan
    requires slot < BINDING_CAPACITY
  {
    var es := m.registry.entries;
    var generation := es[slot].generation;
    var item := QueueRecord(m.tail, generation, slot, receipt.last, NormalLink(receipt.link));
    var record := ReceiptRecord(generation, m.tail + 1, receipt.counter, receipt.last, receipt.ackPower);
    var all := writes + [SaveQueue(item), SaveReceipt(slot, record)];
    var after := m.(receipts := m.receipts[slot := record], tail := m.tail + 1,
                    queuedBySlot := m.queuedBySlot[slot := m.queuedBySlot[slot] + 1]);
    var next := Superseding(es, b.node, slot);
    if next == es then Plan(all, Ok, after)
    else SaveNext(after, all, after.registry.(entries := next), after)
  }

  ghost predicate Acceptable(c: Crypto, b: Binding, expected: u64, receipt: Receipt)
  {
    var m := Open(c, b, receipt.last);
    m.Done? && m.value.kind.DataKind? && m.value.counter == receipt.counter && m.value.counter > expected
  }

  /** `commit`: a full queue gives up its oldest sample first. */
  ghost function CommitPlan(cfg: Config, m: Mem, d: Disk, b: Binding, expected: u64, receipt: Receipt): Plan
  {
    if m.health != Ready then Refuse(m, StorageError)
    else
      var found := Authorized(m, b);
      if found.None? || !cfg.role.Receiver? then Refuse(m, Unauthorized)
      else if m.receipts[found.value].counter != expected then Refuse(m, Conflict)
      else if !Acceptable(cfg.c, b, expected, receipt) then Refuse(m, Result.Invalid)
      else if Queued(m) == QUEUE_CAPACITY then
        var front := FrontHealth(m, d);
        if front != Ready then Plan([], StorageError, m.(health := front))
        else
          var oldest := d.ring[m.head % QUEUE_CAPACITY].slot;
          var evicted := m.(head := m.head + 1, dropped := m.dropped + 1,
                            queuedBySlot := m.queuedBySlot[oldest := Less(m.queuedBySlot[oldest])]);
          AcceptPlan(evicted, [SaveHead(m.head + 1)], found.value, b, receipt)
      else AcceptPlan(m, [], found.value, b, receipt)
  }

  datatype QueuedSample = QueuedSample(node: u64, generation: u64, counter: u64, data: Data, link: Link)

  /** `peek`: the queue front read back from storage. */
  ghost function Peek(cfg: Config, m: Mem, d: Disk): Option<QueuedSample>
  {
    if m.health != Ready || Queued(m) == 0 || FrontHealth(m, d) != Ready then None
    else
      var r := d.ring[m.head % QUEUE_CAPACITY];
      var e := m.registry.entries[r.slot];
      match Open(cfg.c, BindingOf(e, m.registry.network), r.frame)
      case Done(x) => Some(QueuedSample(e.node, e.generation, x.counter, x.data, r.link))
      case Failed(_) => None
  }

  /** Health after a peek: an unreadable front stops the store. */
  ghost function PeekHealth(cfg: Config, m: Mem, d: Disk): Health
  {
    if m.health != Ready || Queued(m) == 0 || Peek(cfg, m, d).Some? then m.health
    else if FrontHealth(m, d) != Ready then FrontHealth(m, d)
    else Health.Invalid
  }

  ghost function ForwardedPlan(cfg: Config, m: Mem, d: Disk, node: u64, generation: u64, counter: u64): Plan
  {
    if m.health != Ready then Refuse(m, StorageError)
    else
      var front := Peek(cfg, m, d);
      if front.None? then
        var h := PeekHealth(cfg, m, d);
        Plan([], if h == Ready then Conflict else StorageError, m.(health := h))
      else if front.value.node != node || front.value.generation != generation || front.value.counter != counter
      then Refuse(m, Conflict)
      else
        var slot := Find(m.registry.entries, node, generation, BINDING_CAPACITY);
        Plan([SaveHead(m.head + 1)], Ok,
             m.(head := m.head + 1,
                queuedBySlot := m.queuedBySlot[slot.value := Less(m.queuedBySlot[slot.value])]))
  }

  function AllRevoked(es: Entries): (r: Entries)
    ensures forall i :: 0 <= i < BINDING_CAPACITY ==>
      r[i] == if es[i].state.Empty? then es[i] else es[i].(state := Revoked)
  {
    seq(BINDING_CAPACITY, i requires 0 <= i < BINDING_CAPACITY =>
      if es[i].state.Empty? then es[i] else Revoke(es[i]))
  }

  /** Retires the occupied entries among the first `n`, in slot order. */
  function RetireAll(c: Crypto, l: RetiredList, es: Entries, n: nat): RetiredList
    requires n <= BINDING_CAPACITY
  {
    if n == 0 then l
    else
      var p := RetireAll(c, l, es, n - 1);
      if es[n - 1].state.Empty? then p else RetireOnce(c, p, es[n - 1])
  }

  /** `reset`: revoke, retire, drop the queue, then empty the registry. */
  function ResetPlan(cfg: Config, m: Mem, discardQueue: bool): Plan
  {
    if m.health != Ready then Refuse(m, StorageError)
    else if Queued(m) != 0 && !discardQueue then Refuse(m, Conflict)
    else
      var retired := RetireAll(cfg.c, m.retired, m.registry.entries, BINDING_CAPACITY);
      var first := SaveNext(m, [], m.registry.(entries := AllRevoked(m.registry.entries)), m);
      if first.result != Ok then first
      else
        var head := if Queued(m) != 0 then [SaveHead(m.tail)] else [];
        var emptied := first.after.(retired := retired, head := m.tail);
        SaveNext(emptied, first.writes + [SaveRetired(retired)] + head, NO_REGISTRY,
                 emptied.(receipts := NoReceipts(), queuedBySlot := NoCounts()))
  }

  datatype Op =
    | OpPrepare(x: Credential)
    | OpActivate(node: u64, generation: u64)
    | OpAlongside(node: u64, generation: u64)
    | OpRevoke(node: u64, generation: u64)
    | OpReserve(b: Binding)
    | OpCommit(b: Binding, expected: u64, receipt: Receipt)
    | OpForwarded(node: u64, generation: u64, counter: u64)
    | OpReset(discardQueue: bool)

  ghost function PlanOf(cfg: Config, m: Mem, d: Disk, op: Op): Plan
  {
    match op
    case OpPrepare(x) => PreparePlan(cfg, m, x)
    case OpActivate(node, generation) => ActivatePlan(m, node, generation)
    case OpAlongside(node, generation) => AlongsidePlan(cfg, m, node, generation)
    case OpRevoke(node, generation) => RevokePlan(m, node, generation)
    case OpReserve(b) => ReservePlan(cfg, m, b)
    case OpCommit(b, expected, receipt) => CommitPlan(cfg, m, d, b, expected, receipt)
    case OpForwarded(node, generation, counter) => ForwardedPlan(cfg, m, d, node, generation, counter)
    case OpReset(discardQueue) => ResetPlan(cfg, m, discardQueue)
  }
}
