// Every record an operation writes is one its decoder accepts.
module StoreFits {
  import opened Protocol
  import opened Codec
  import opened Records
  import opened Store
  import opened StoreInvariant
  import opened StoreOps
  import opened StoreBytes

  /** The kinds of records an operation other than commit writes, and where. */
  predicate Plain(cfg: Config, w: Write)
  {
    w.SaveRegistry? || w.SaveRetired? || (w.SaveHead? && cfg.role.Receiver?)
  }

  lemma SafeFits(cfg: Config, d: Disk, h: History, ws: seq<Write>, k: nat)
    requires Safe(cfg, d, h, ws) && k < |ws|
    requires Plain(cfg, ws[k]) || (ws[k].SaveReceipt? && ws[k].slot < BINDING_CAPACITY && cfg.role.Receiver?)
    ensures WriteFits(cfg, ws[k])
  {
    hide Safe, Inv;
    SafePrefix(cfg, d, h, ws, k + 1);
    PrefixStep(d, h, ws, k);
    WrittenFits(cfg, ApplyAll(d, ws[..k]), TrackAll(h, d, ws[..k + 1]), ws[k]);
  }

  /** One more write of a list. */
  lemma {:induction false} PrefixStep(d: Disk, h: History, ws: seq<Write>, k: nat)
    requires k < |ws|
    ensures ApplyAll(d, ws[..k + 1]) == Apply(ApplyAll(d, ws[..k]), ws[k])
    ensures TrackAll(h, d, ws[..k + 1]) == Track(TrackAll(h, d, ws[..k]), ApplyAll(d, ws[..k]), ws[k])
    decreases ws
  {
    if k != 0 {
      PrefixStep(Apply(d, ws[0]), Track(h, d, ws[0]), ws[1..], k - 1);
      assert ws[..k + 1][1..] == ws[1..][..k] && ws[..k][1..] == ws[1..][..k - 1];
    } else {
      assert ws[..1][1..] == [];
    }
  }

  lemma WrittenFits(cfg: Config, d: Disk, h: History, w: Write)
    requires Inv(cfg, Apply(d, w), h)
    requires Plain(cfg, w) || (w.SaveReceipt? && w.slot < BINDING_CAPACITY && cfg.role.Receiver?)
    ensures WriteFits(cfg, w)
  {
    var t := Apply(d, w);
    match w
    case SaveRegistry(r) => assert Reg(t) == r;
    case SaveRetired(l) => assert Ret(t) == l;
    case SaveHead(n) => assert Head(t) == n;
    case SaveReceipt(slot, r) => assert ReceiptInv(Reg(t), t.receipts, h, slot);
    case _ =>
  }

  lemma ItemFits(cfg: Config, m: Mem, d: Disk, h: History, slot: nat, b: Binding, receipt: Receipt)
    requires SystemInv(cfg, m, d, h) && Checked(cfg, m.(head := m.tail), h, slot, b, receipt)
    ensures QueueFits(ItemOf(m, slot, receipt))
  {
    assert m.registry == Reg(d) && m.tail == |h.log|;
    assert m.registry != NO_REGISTRY;
    assert EntryFits(cfg.role, cfg.device, m.registry.receiver, m.registry.entries[slot]);
    OpenedFields(cfg.c, b, receipt.last);
  }

  lemma AcceptWrites(m: Mem, ws: seq<Write>, slot: nat, b: Binding, receipt: Receipt)
    requires slot < BINDING_CAPACITY
    ensures
      forall w | w in AcceptPlan(m, ws, slot, b, receipt).writes ::
        || w in ws || w == SaveQueue(ItemOf(m, slot, receipt)) || w == SaveReceipt(slot, RecordOf(m, slot, receipt))
        || w.SaveRegistry?
  {
    hide Superseding;
  }

  /** A commit that writes anything is an acceptance, after an eviction when the queue is full. */
  lemma CommitIsAccept(cfg: Config, m: Mem, d: Disk, b: Binding, expected: u64, receipt: Receipt)
    requires CommitPlan(cfg, m, d, b, expected, receipt).writes != []
    ensures
      var found := Authorized(m, b);
      && found.Some? && cfg.role.Receiver? && m.receipts[found.value].counter == expected
      && Acceptable(cfg.c, b, expected, receipt)
      && (if Queued(m) == QUEUE_CAPACITY then
            && m.head % QUEUE_CAPACITY in d.ring && d.ring[m.head % QUEUE_CAPACITY].slot < BINDING_CAPACITY
            && FrontHealth(m, d) == Ready
            && CommitPlan(cfg, m, d, b, expected, receipt)
              == AcceptPlan(Evicted(m, d.ring[m.head % QUEUE_CAPACITY].slot), [SaveHead(m.head + 1)], found.value, b,
                            receipt)
          else CommitPlan(cfg, m, d, b, expected, receipt) == AcceptPlan(m, [], found.value, b, receipt))
  {
    hide Acceptable, AcceptPlan, FindActive;
  }

  lemma CommitFits(cfg: Config, m: Mem, d: Disk, h: History, b: Binding, expected: u64, receipt: Receipt)
    requires SystemInv(cfg, m, d, h) && Allowed(cfg, m, d, h, OpCommit(b, expected, receipt))
    ensures
      forall w | w in CommitPlan(cfg, m, d, b, expected, receipt).writes ::
        || Plain(cfg, w) || (w.SaveReceipt? && w.slot < BINDING_CAPACITY && cfg.role.Receiver?)
        || (w.SaveQueue? && QueueFits(w.record))
  {
    hide SystemInv, Acceptable, FrontHealth, QueueFits, FindActive, AcceptPlan, CommitPlan, FrameVersion;
    if CommitPlan(cfg, m, d, b, expected, receipt).writes != [] {
      CommitIsAccept(cfg, m, d, b, expected, receipt);
      var slot := Authorized(m, b).value;
      ItemFits(cfg, m, d, h, slot, b, receipt);
      var full := Queued(m) == QUEUE_CAPACITY;
      var base := if full then Evicted(m, d.ring[m.head % QUEUE_CAPACITY].slot) else m;
      var ws := if full then [SaveHead(m.head + 1)] else [];
      AcceptWrites(base, ws, slot, b, receipt);
      assert ItemOf(base, slot, receipt) == ItemOf(m, slot, receipt);
    }
  }

  lemma ResetPlain(cfg: Config, m: Mem, discardQueue: bool)
    requires cfg.role.Transmitter? ==> m.head == m.tail
    ensures forall w | w in ResetPlan(cfg, m, discardQueue).writes :: Plain(cfg, w)
  {
    hide RetireAll;
  }

  lemma PreparePlain(cfg: Config, m: Mem, x: Credential)
    ensures forall w | w in PreparePlan(cfg, m, x).writes :: Plain(cfg, w)
  {
    hide IsRetired, Clashes, RetireOnce, WellFormed, Find, SameNetwork;
  }

  lemma OthersPlain(cfg: Config, m: Mem, d: Disk, h: History, op: Op)
    requires SystemInv(cfg, m, d, h) && !op.OpCommit?
    ensures forall w | w in PlanOf(cfg, m, d, op).writes :: Plain(cfg, w)
  {
    assert m.health == Ready && cfg.role.Transmitter? ==> m.head == m.tail;
    hide SystemInv, FrontHealth, Find, Superseding, ResetPlan, PreparePlan;
    match op
    case OpPrepare(x) => PreparePlain(cfg, m, x);
    case OpReset(discardQueue) =>
      if m.health == Ready {
        ResetPlain(cfg, m, discardQueue);
      } else {
        ResetRefused(cfg, m, discardQueue);
      }
    case _ =>
  }

  lemma ResetRefused(cfg: Config, m: Mem, discardQueue: bool)
    requires m.health != Ready
    ensures ResetPlan(cfg, m, discardQueue).writes == []
  {
  }

  /** Every record of a plan is one its decoder accepts. */
  lemma PlanFits(cfg: Config, m: Mem, d: Disk, h: History, op: Op)
    requires SystemInv(cfg, m, d, h) && Allowed(cfg, m, d, h, op)
    ensures forall w | w in PlanOf(cfg, m, d, op).writes :: WriteFits(cfg, w)
  {
    var ws := PlanOf(cfg, m, d, op).writes;
    OperationSound(cfg, m, d, h, op);
    if op.OpCommit? {
      CommitFits(cfg, m, d, h, op.b, op.expected, op.receipt);
    } else {
      OthersPlain(cfg, m, d, h, op);
    }
    hide SystemInv, Safe, Allowed, PlanOf, Agrees, QueueFits;
    forall w | w in ws ensures WriteFits(cfg, w) {
      var k :| 0 <= k < |ws| && ws[k] == w;
      if !w.SaveQueue? {
        SafeFits(cfg, d, h, ws, k);
      }
    }
  }
}
