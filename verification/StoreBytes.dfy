// The store as bytes under record names, and the typed records they stand for.
module StoreBytes {
  import opened Wire
  import opened Protocol
  import opened Records
  import opened Snapshot
  import opened Store
  import opened StoreInvariant

  type Blobs = map<string, seq<byte>>

  const REGISTRY_KEY := "registry"
  const RETIRED_KEY := "retired"
  const HEAD_KEY := "head"
  const LEGACY_KEY := "snapshot"

  function NameOf(w: Write): string
    requires w.SaveReceipt? ==> w.slot < BINDING_CAPACITY
  {
    match w
    case SaveRegistry(_) => REGISTRY_KEY
    case SaveRetired(_) => RETIRED_KEY
    case SaveHead(_) => HEAD_KEY
    case SaveQueue(q) => QueueKey(q.sequence)
    case SaveReceipt(slot, _) => ReceiptKey(slot)
    case EraseLegacy => LEGACY_KEY
  }

  function BytesOf(cfg: Config, w: Write): seq<byte>
  {
    match w
    case SaveRegistry(r) => EncodeRegistry(cfg.c, cfg.role, cfg.device, r)
    case SaveRetired(l) => EncodeRetired(cfg.c, l)
    case SaveHead(n) => EncodeHead(cfg.c, n)
    case SaveQueue(q) => EncodeQueue(cfg.c, q)
    case SaveReceipt(_, r) => EncodeReceipt(cfg.c, r)
    case EraseLegacy => []
  }

  /** One record written or removed. */
  function ApplyBytes(cfg: Config, b: Blobs, w: Write): Blobs
    requires w.SaveReceipt? ==> w.slot < BINDING_CAPACITY
  {
    if w.EraseLegacy? then b - {LEGACY_KEY} else b[NameOf(w) := BytesOf(cfg, w)]
  }

  /** The record is one its decoder accepts. */
  ghost predicate WriteFits(cfg: Config, w: Write)
  {
    match w
    case SaveRegistry(r) => RegistryFits(cfg.role, cfg.device, r)
    case SaveRetired(l) => RetiredFits(l)
    case SaveHead(n) => n <= UINT64_MAX
    case SaveQueue(q) => QueueFits(q)
    case SaveReceipt(slot, r) => slot < BINDING_CAPACITY && ReceiptFits(r)
    case EraseLegacy => true
  }

  // Stand-ins for records that do not decode; none satisfies its record's rules.
  const BAD_RETIRED: RetiredList := [Retired(0, 0)]
  const BAD_HEAD: nat := UINT64_MAX + 1
  const BAD_RECEIPT := NO_RECEIPT_RECORD
  const BAD_QUEUED := QueueRecord(0, 0, 0, [], UNKNOWN_LINK)

  function ReceiptIn(c: Crypto, bytes: seq<byte>): ReceiptRecord
  {
    var r := DecodeReceipt(c, bytes);
    if r.Some? then r.value else BAD_RECEIPT
  }

  function QueuedIn(c: Crypto, bytes: seq<byte>): QueueRecord
  {
    var q := DecodeQueue(c, bytes);
    if q.Some? then q.value else BAD_QUEUED
  }

  function RetiredIn(c: Crypto, bytes: seq<byte>): RetiredList
  {
    var l := DecodeRetired(c, bytes);
    if l.Some? then l.value else BAD_RETIRED
  }

  function HeadIn(c: Crypto, bytes: seq<byte>): nat
  {
    var n := DecodeHead(c, bytes);
    if n.Some? then n.value else BAD_HEAD
  }

  function ReceiptsIn(c: Crypto, b: Blobs): map<nat, ReceiptRecord>
  {
    map slot: nat | slot < BINDING_CAPACITY && ReceiptKey(slot) in b :: ReceiptIn(c, b[ReceiptKey(slot)])
  }

  function RingIn(c: Crypto, b: Blobs): map<nat, QueueRecord>
  {
    map i: nat | i < QUEUE_CAPACITY && QueueKey(i) in b :: QueuedIn(c, b[QueueKey(i)])
  }

  /** What the bytes stand for. */
  ghost function View(cfg: Config, b: Blobs): Disk
  {
    Disk(if REGISTRY_KEY in b then Some(DecodeRegistry(cfg.c, cfg.role, cfg.device, b[REGISTRY_KEY]).registry)
         else None,
         if RETIRED_KEY in b then Some(RetiredIn(cfg.c, b[RETIRED_KEY])) else None,
         if HEAD_KEY in b then Some(HeadIn(cfg.c, b[HEAD_KEY])) else None,
         ReceiptsIn(cfg.c, b), RingIn(cfg.c, b),
         if LEGACY_KEY in b then Some(DecodeSnapshot(cfg.c, cfg.role, cfg.device, b[LEGACY_KEY]).snap) else None)
  }

  // ------------------------------------------------------------------ writing bytes is writing records

  lemma NamesDistinct(slot: nat, sequence: nat)
    requires slot < BINDING_CAPACITY
    ensures ReceiptKey(slot) != REGISTRY_KEY && ReceiptKey(slot) != RETIRED_KEY
    ensures ReceiptKey(slot) != HEAD_KEY && ReceiptKey(slot) != LEGACY_KEY
    ensures QueueKey(sequence) != REGISTRY_KEY && QueueKey(sequence) != RETIRED_KEY
    ensures QueueKey(sequence) != HEAD_KEY && QueueKey(sequence) != LEGACY_KEY
    ensures ReceiptKey(slot) != QueueKey(sequence)
  {
    assert |ReceiptKey(slot)| == 3 && |QueueKey(sequence)| == 3;
    NamesApart(slot, sequence);
  }

  lemma KeysDistinct()
    ensures REGISTRY_KEY != RETIRED_KEY && REGISTRY_KEY != HEAD_KEY && REGISTRY_KEY != LEGACY_KEY
    ensures RETIRED_KEY != HEAD_KEY && RETIRED_KEY != LEGACY_KEY && HEAD_KEY != LEGACY_KEY
  {
    assert REGISTRY_KEY[2] != RETIRED_KEY[2] && |HEAD_KEY| == 4;
    assert |REGISTRY_KEY| == 8 && |RETIRED_KEY| == 7 && |LEGACY_KEY| == 8;
    assert REGISTRY_KEY[0] != LEGACY_KEY[0];
  }

  /** Bytes that differ only under one other name hold the same receipts and queue records. */
  lemma OthersKeep(c: Crypto, a: Blobs, b: Blobs)
    requires forall slot: nat | slot < BINDING_CAPACITY ::
      (ReceiptKey(slot) in a <==> ReceiptKey(slot) in b)
        && (ReceiptKey(slot) in a ==> a[ReceiptKey(slot)] == b[ReceiptKey(slot)])
    ensures ReceiptsIn(c, a) == ReceiptsIn(c, b)
  {
  }

  lemma RingKeeps(c: Crypto, a: Blobs, b: Blobs)
    requires forall i: nat | i < QUEUE_CAPACITY ::
      (QueueKey(i) in a <==> QueueKey(i) in b) && (QueueKey(i) in a ==> a[QueueKey(i)] == b[QueueKey(i)])
    ensures RingIn(c, a) == RingIn(c, b)
  {
  }

  lemma ReceiptWritten(c: Crypto, b: Blobs, slot: nat, r: ReceiptRecord)
    requires slot < BINDING_CAPACITY && ReceiptFits(r)
    ensures ReceiptsIn(c, b[ReceiptKey(slot) := EncodeReceipt(c, r)]) == ReceiptsIn(c, b)[slot := r]
  {
    ReceiptRoundTrip(c, r);
    var t := b[ReceiptKey(slot) := EncodeReceipt(c, r)];
    forall i: nat | i < BINDING_CAPACITY
      ensures i in ReceiptsIn(c, t) <==> i in ReceiptsIn(c, b)[slot := r]
      ensures i in ReceiptsIn(c, t) ==> ReceiptsIn(c, t)[i] == ReceiptsIn(c, b)[slot := r][i]
    {
      NamesApart(i, slot);
    }
  }

  lemma QueuedWrittenAt(c: Crypto, b: Blobs, q: QueueRecord, i: nat)
    requires QueueFits(q) && i < QUEUE_CAPACITY
    ensures
      var t := b[QueueKey(q.sequence) := EncodeQueue(c, q)];
      && (QueueKey(i) in t <==> i == q.sequence % QUEUE_CAPACITY || QueueKey(i) in b)
      && (QueueKey(i) in t ==>
            QueuedIn(c, t[QueueKey(i)]) == if i == q.sequence % QUEUE_CAPACITY then q else QueuedIn(c, b[QueueKey(i)]))
  {
    QueueRoundTrip(c, q);
    NamesApart(i, q.sequence);
    hide DecodeQueue, EncodeQueue, QueueFits, QueueKey;
    assert i % 128 == i;
  }

  lemma QueuedWritten(c: Crypto, b: Blobs, q: QueueRecord)
    requires QueueFits(q)
    ensures RingIn(c, b[QueueKey(q.sequence) := EncodeQueue(c, q)]) == RingIn(c, b)[q.sequence % QUEUE_CAPACITY := q]
  {
    hide QueuedIn, EncodeQueue, QueueFits, QueueKey;
    var t := b[QueueKey(q.sequence) := EncodeQueue(c, q)];
    var x, y := RingIn(c, t), RingIn(c, b)[q.sequence % QUEUE_CAPACITY := q];
    forall i: nat | i < QUEUE_CAPACITY
      ensures i in x <==> i in y
      ensures i in x ==> x[i] == y[i]
    {
      QueuedWrittenAt(c, b, q, i);
    }
  }

  /** Records other than receipts and queue records leave both alone. */
  lemma NamedWritten(cfg: Config, b: Blobs, w: Write)
    requires !w.SaveReceipt? && !w.SaveQueue?
    ensures ReceiptsIn(cfg.c, ApplyBytes(cfg, b, w)) == ReceiptsIn(cfg.c, b)
    ensures RingIn(cfg.c, ApplyBytes(cfg, b, w)) == RingIn(cfg.c, b)
  {
    var t := ApplyBytes(cfg, b, w);
    hide ReceiptsIn, RingIn, BytesOf;
    forall i: nat | i < BINDING_CAPACITY
      ensures (ReceiptKey(i) in b <==> ReceiptKey(i) in t)
        && (ReceiptKey(i) in b ==> b[ReceiptKey(i)] == t[ReceiptKey(i)])
    {
      NamesDistinct(i, 0);
    }
    forall i: nat | i < QUEUE_CAPACITY
      ensures (QueueKey(i) in b <==> QueueKey(i) in t) && (QueueKey(i) in b ==> b[QueueKey(i)] == t[QueueKey(i)])
    {
      NamesDistinct(0, i);
    }
    OthersKeep(cfg.c, b, t);
    RingKeeps(cfg.c, b, t);
  }

  lemma ReceiptLeavesOthers(cfg: Config, b: Blobs, slot: nat, r: ReceiptRecord)
    requires slot < BINDING_CAPACITY
    ensures RingIn(cfg.c, ApplyBytes(cfg, b, SaveReceipt(slot, r))) == RingIn(cfg.c, b)
  {
    var t := ApplyBytes(cfg, b, SaveReceipt(slot, r));
    hide RingIn, BytesOf;
    forall i: nat | i < QUEUE_CAPACITY
      ensures (QueueKey(i) in b <==> QueueKey(i) in t) && (QueueKey(i) in b ==> b[QueueKey(i)] == t[QueueKey(i)])
    {
      NamesDistinct(slot, i);
    }
    RingKeeps(cfg.c, b, t);
  }

  lemma QueuedLeavesOthers(cfg: Config, b: Blobs, q: QueueRecord)
    ensures ReceiptsIn(cfg.c, ApplyBytes(cfg, b, SaveQueue(q))) == ReceiptsIn(cfg.c, b)
  {
    var t := ApplyBytes(cfg, b, SaveQueue(q));
    hide ReceiptsIn, BytesOf;
    forall i: nat | i < BINDING_CAPACITY
      ensures (ReceiptKey(i) in b <==> ReceiptKey(i) in t)
        && (ReceiptKey(i) in b ==> b[ReceiptKey(i)] == t[ReceiptKey(i)])
    {
      NamesDistinct(i, q.sequence);
    }
    OthersKeep(cfg.c, b, t);
  }

  /** Writing the encoding of a record under its name is writing the record. */
  lemma BytesAreRecords(cfg: Config, b: Blobs, w: Write)
    requires WriteFits(cfg, w)
    ensures View(cfg, ApplyBytes(cfg, b, w)) == Apply(View(cfg, b), w)
  {
    hide ReceiptsIn, RingIn, RegistryFits, RetiredFits, ReceiptFits, QueueFits, DecodeRegistry, EncodeRegistry,
      DecodeSnapshot, DecodeHead, DecodeRetired, EncodeHead, EncodeRetired, EncodeReceipt, EncodeQueue, ReceiptKey,
        QueueKey;
    KeysDistinct();
    match w
    case SaveRegistry(r) =>
      RegistryRoundTrip(cfg.c, cfg.role, cfg.device, r);
      NamedWritten(cfg, b, w);
    case SaveRetired(l) =>
      RetiredRoundTrip(cfg.c, l);
      NamedWritten(cfg, b, w);
    case SaveHead(n) =>
      HeadRoundTrip(cfg.c, n);
      NamedWritten(cfg, b, w);
    case SaveQueue(q) =>
      NamesDistinct(0, q.sequence);
      QueuedWritten(cfg.c, b, q);
      QueuedLeavesOthers(cfg, b, q);
    case SaveReceipt(slot, r) =>
      NamesDistinct(slot, 0);
      ReceiptWritten(cfg.c, b, slot, r);
      ReceiptLeavesOthers(cfg, b, slot, r);
    case EraseLegacy =>
      NamedWritten(cfg, b, w);
  }

  // ------------------------------------------------------------------ reading bytes is reading records

  /** `load` of a device that needs no migration, from its bytes. */
  ghost function LoadBytes(cfg: Config, b: Blobs): Mem
  {
    if cfg.device == 0 then Cleared(Identity, 0)
    else if REGISTRY_KEY in b && DecodeRegistry(cfg.c, cfg.role, cfg.device, b[REGISTRY_KEY]).health != Ready
    then Cleared(DecodeRegistry(cfg.c, cfg.role, cfg.device, b[REGISTRY_KEY]).health, 0)
    else LoadDisk(cfg, View(cfg, b))
  }

  /** A record decodes exactly when what it stands for satisfies the record's rules. */
  lemma DecodesIffFits(c: Crypto, bytes: seq<byte>)
    ensures DecodeReceipt(c, bytes).Some? <==> ReceiptFits(ReceiptIn(c, bytes))
    ensures DecodeQueue(c, bytes).Some? <==> QueueFits(QueuedIn(c, bytes))
    ensures DecodeRetired(c, bytes).Some? <==> RetiredFits(RetiredIn(c, bytes))
    ensures DecodeHead(c, bytes).Some? <==> HeadIn(c, bytes) <= UINT64_MAX
  {
    hide DecodeReceipt, DecodeQueue, DecodeRetired, DecodeHead, EncodeReceipt, EncodeQueue, EncodeRetired;
    if DecodeReceipt(c, bytes).Some? {
      ReceiptCanonical(c, bytes);
    }
    if DecodeQueue(c, bytes).Some? {
      QueueCanonical(c, bytes);
    }
    if DecodeRetired(c, bytes).Some? {
      RetiredCanonical(c, bytes);
    } else {
      assert BAD_RETIRED[0].generation == 0;
    }
  }

  lemma RegistryInBytes(cfg: Config, b: Blobs)
    requires REGISTRY_KEY in b && DecodeRegistry(cfg.c, cfg.role, cfg.device, b[REGISTRY_KEY]).health == Ready
    ensures View(cfg, b).registry.Some? && RegistryFits(cfg.role, cfg.device, Reg(View(cfg, b)))
    ensures EncodeRegistry(cfg.c, cfg.role, cfg.device, Reg(View(cfg, b))) == b[REGISTRY_KEY]
  {
    hide DecodeRegistry, EncodeRegistry, RegistryFits;
    RegistryCanonical(cfg.c, cfg.role, cfg.device, b[REGISTRY_KEY]);
  }

  /**
   * On bytes: whatever satisfies the invariant mounts, with the true queue.
   */
  lemma BytesMount(cfg: Config, b: Blobs, h: History)
    requires Inv(cfg, View(cfg, b), h)
    ensures LoadBytes(cfg, b) == LoadDisk(cfg, View(cfg, b)) == Recovered(cfg, View(cfg, b), h)
  {
    Mounts(cfg, View(cfg, b), h);
    LoadsRecords(cfg, b);
  }

  /** A registry record that stands for a registry it may hold has decoded. */
  lemma LoadsRecords(cfg: Config, b: Blobs)
    requires cfg.device != 0
    requires View(cfg, b).registry.Some? ==> RegistryFits(cfg.role, cfg.device, Reg(View(cfg, b)))
    ensures LoadBytes(cfg, b) == LoadDisk(cfg, View(cfg, b))
  {
    hide DecodeRegistry, RegistryFits, LoadDisk;
    if REGISTRY_KEY in b {
      var d := DecodeRegistry(cfg.c, cfg.role, cfg.device, b[REGISTRY_KEY]);
      assert RegistryFits(cfg.role, cfg.device, d.registry);
      FailedRegistry(cfg, b[REGISTRY_KEY]);
    }
  }

  /** A registry that does not decode stands for the empty one, which no record may hold. */
  lemma FailedRegistry(cfg: Config, bytes: seq<byte>)
    ensures
      var d := DecodeRegistry(cfg.c, cfg.role, cfg.device, bytes);
      d.health != Ready ==> d.registry == NO_REGISTRY && !RegistryFits(cfg.role, cfg.device, d.registry)
  {
  }
}
