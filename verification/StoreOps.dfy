// Every operation of the store, cut at any write, leaves a durable state that mounts; run to
// the end it leaves memory equal to what a mount would recover.
module StoreOps {
  import opened Protocol
  import opened Codec
  import opened Records
  import opened Store
  import opened StoreInvariant
  import opened StoreSafety

  /** Every prefix of the writes satisfies the invariant, under the history it produces. */
  ghost predicate Safe(cfg: Config, d: Disk, h: History, ws: seq<Write>)
    decreases ws
  {
    Inv(cfg, d, h) && (ws != [] ==> Safe(cfg, Apply(d, ws[0]), Track(h, d, ws[0]), ws[1..]))
  }

  lemma {:induction false} SafePrefix(cfg: Config, d: Disk, h: History, ws: seq<Write>, k: nat)
    requires Safe(cfg, d, h, ws) && k <= |ws|
    ensures Inv(cfg, ApplyAll(d, ws[..k]), TrackAll(h, d, ws[..k]))
    decreases ws
  {
    hide Inv, Apply, Track;
    if k != 0 {
      SafePrefix(cfg, Apply(d, ws[0]), Track(h, d, ws[0]), ws[1..], k - 1);
      assert ws[1..][..k - 1] == ws[..k][1..];
    }
  }

  lemma {:induction false} SafeAppend(cfg: Config, d: Disk, h: History, ws: seq<Write>, w: Write)
    requires Safe(cfg, d, h, ws)
    requires Inv(cfg, Apply(ApplyAll(d, ws), w), Track(TrackAll(h, d, ws), ApplyAll(d, ws), w))
    ensures Safe(cfg, d, h, ws + [w])
    ensures ApplyAll(d, ws + [w]) == Apply(ApplyAll(d, ws), w)
    ensures TrackAll(h, d, ws + [w]) == Track(TrackAll(h, d, ws), ApplyAll(d, ws), w)
    decreases ws
  {
    if ws != [] {
      assert (ws + [w])[1..] == ws[1..] + [w];
      SafeAppend(cfg, Apply(d, ws[0]), Track(h, d, ws[0]), ws[1..], w);
    }
  }

  lemma SafeEnd(cfg: Config, d: Disk, h: History, ws: seq<Write>)
    requires Safe(cfg, d, h, ws)
    ensures Inv(cfg, ApplyAll(d, ws), TrackAll(h, d, ws))
  {
    hide Inv;
    SafePrefix(cfg, d, h, ws, |ws|);
    assert ws[..|ws|] == ws;
  }

  /** While the store is healthy its memory is what a mount would recover. */
  ghost predicate Agrees(cfg: Config, m: Mem, d: Disk, h: History)
  {
    m.health == Ready ==>
      (cfg.role.Receiver? ==> Head(d) <= |h.log|) && m.(dropped := 0) == Recovered(cfg, d, h)
  }

  ghost predicate SystemInv(cfg: Config, m: Mem, d: Disk, h: History)
  {
    Inv(cfg, d, h) && Agrees(cfg, m, d, h)
  }

  /**
   * What the environment must respect. Credentials that left the registry are not enrolled
   * again once the retired list has forgotten them; fingerprints of keys in use are
   * distinct; sequences stay below 2^64; a v1 frame comes with KeepPower.
   */
  ghost predicate Allowed(cfg: Config, m: Mem, d: Disk, h: History, op: Op)
  {
    match op
    case OpPrepare(x) =>
      && (x.generation in h.goneGenerations || x.key in h.goneKeys ==>
            IsRetired(Ret(d), x.generation, cfg.c.fingerprint(x.key)))
      && (forall i | 0 <= i < BINDING_CAPACITY ::
            !Reg(d).entries[i].state.Empty? && Reg(d).entries[i].key != x.key ==>
              cfg.c.fingerprint(Reg(d).entries[i].key) != cfg.c.fingerprint(x.key))
    case OpCommit(b, expected, receipt) =>
      |h.log| < UINT64_MAX && (FrameVersion(receipt.last) == WIRE_V2 || receipt.ackPower == KEEP_POWER)
    case _ => true
  }

  /** The outcome every operation is proved to have. */
  ghost predicate Sound(cfg: Config, d: Disk, h: History, p: Plan)
  {
    && Safe(cfg, d, h, p.writes)
    && Agrees(cfg, p.after, ApplyAll(d, p.writes), TrackAll(h, d, p.writes))
  }

  // ------------------------------------------------------------------ registry-only operations

  lemma {:induction false} MovesOccupied(a: Entries, b: Entries, n: nat)
    requires n <= BINDING_CAPACITY && forall i | 0 <= i < BINDING_CAPACITY :: Moves(a[i], b[i])
    ensures Occupied(a, n) == Occupied(b, n)
  {
    if n != 0 {
      MovesOccupied(a, b, n - 1);
      assert Moves(a[n - 1], b[n - 1]);
    }
  }

  lemma MovesFit(cfg: Config, a: Registry, b: Registry)
    requires a == NO_REGISTRY || RegistryFits(cfg.role, cfg.device, a)
    requires SameCredentials(a, b) && b.revision != 0
    requires cfg.role.Receiver? ==> forall i | 0 <= i < BINDING_CAPACITY :: a.entries[i].counter == b.entries[i].counter
    ensures RegistryFits(cfg.role, cfg.device, b)
  {
    MovesOccupied(a.entries, b.entries, BINDING_CAPACITY);
    if a == NO_REGISTRY {
      EmptyTail(a.entries, 0, BINDING_CAPACITY);
    }
    forall i | 0 <= i < BINDING_CAPACITY
      ensures b.entries[i] == NO_ENTRY || EntryFits(cfg.role, cfg.device, b.receiver, b.entries[i])
    {
      assert Moves(a.entries[i], b.entries[i]);
      assert a == NO_REGISTRY || a.entries[i] == NO_ENTRY || EntryFits(cfg.role, cfg.device, a.receiver, a.entries[i]);
    }
  }

  lemma MovesLive(a: Registry, b: Registry, receipts: map<nat, ReceiptRecord>)
    requires SameCredentials(a, b)
    ensures Live(a, receipts) == Live(b, receipts)
  {
    forall i | 0 <= i < BINDING_CAPACITY ensures Live(a, receipts)[i] == Live(b, receipts)[i] {
      assert Moves(a.entries[i], b.entries[i]);
    }
  }

  lemma RegistryIsFit(cfg: Config, d: Disk, h: History)
    requires Inv(cfg, d, h)
    ensures Reg(d) == NO_REGISTRY || RegistryFits(cfg.role, cfg.device, Reg(d))
  {
    hide QueueInv;
  }

  /** A last registry write that only moves states, after writes already shown safe. */
  lemma MovesSound(cfg: Config, m: Mem, d: Disk, h: History, ws: seq<Write>, next: Registry)
    requires Safe(cfg, d, h, ws) && m.health == Ready
    requires Agrees(cfg, m, ApplyAll(d, ws), TrackAll(h, d, ws))
    requires SameCredentials(m.registry, next) && ActiveWithin(cfg, next.entries)
    requires cfg.role.Receiver? ==>
      forall i | 0 <= i < BINDING_CAPACITY :: m.registry.entries[i].counter == next.entries[i].counter
    ensures Sound(cfg, d, h, SaveNext(m, ws, next, m))
    ensures TrackAll(h, d, SaveNext(m, ws, next, m).writes) == TrackAll(h, d, ws)
  {
    hide Safe, Inv, RegistryFits, CountsOf, MarksApart, Validated, ActiveOf;
    SafeEnd(cfg, d, h, ws);
    if m.registry.revision != UINT64_MAX {
      var d1, h1 := ApplyAll(d, ws), TrackAll(h, d, ws);
      RegistryIsFit(cfg, d1, h1);
      var saved := next.(revision := m.registry.revision + 1);
      MovesFit(cfg, m.registry, saved);
      StatesSaved(cfg, d1, h1, saved);
      SafeAppend(cfg, d, h, ws, SaveRegistry(saved));
      MovesLive(m.registry, saved, d1.receipts);
    }
  }

  lemma FoundUnique(cfg: Config, es: Entries, retired: seq<Retired>, i: nat, j: nat)
    requires Validated(cfg, es, retired) && i < BINDING_CAPACITY && j < BINDING_CAPACITY
    requires !es[i].state.Empty? && !es[j].state.Empty? && es[i].generation == es[j].generation
    ensures i == j
  {
  }

  /** Activating a slot with at most slot `keep` left active beside it stays within the limit. */
  lemma ActivatedWithin(cfg: Config, es: Entries, retired: seq<Retired>, slot: nat, node: u64, keep: int)
    requires Validated(cfg, es, retired) && slot < BINDING_CAPACITY && es[slot].node == node && es[slot].state.Prepared?
    requires keep == -1 || cfg.role.Receiver?
    ensures ActiveWithin(cfg, Activated(Superseding(es, node, keep), slot))
    ensures forall i | 0 <= i < BINDING_CAPACITY :: Moves(es[i], Activated(Superseding(es, node, keep), slot)[i])
    ensures forall i | 0 <= i < BINDING_CAPACITY ::
      es[i].counter == Activated(Superseding(es, node, keep), slot)[i].counter
  {
    var next := Activated(Superseding(es, node, keep), slot);
    forall i | 0 <= i < BINDING_CAPACITY && next[i].state.Active?
      ensures ActiveOf(next, next[i].node, BINDING_CAPACITY) <= ActiveLimit(cfg.role)
    {
      if next[i].node == node {
        AtMostTwo(next, node, slot, keep, BINDING_CAPACITY);
      } else {
        FewerActive(es, next, next[i].node, BINDING_CAPACITY);
        assert es[i].state.Active? && es[i].node == next[i].node;
      }
    }
  }

  lemma ActivateSound(cfg: Config, m: Mem, d: Disk, h: History, node: u64, generation: u64)
    requires SystemInv(cfg, m, d, h)
    ensures Sound(cfg, d, h, ActivatePlan(m, node, generation))
    ensures TrackAll(h, d, ActivatePlan(m, node, generation).writes) == h
  {
    var p := ActivatePlan(m, node, generation);
    if m.health == Ready {
      var found := Find(m.registry.entries, node, generation, BINDING_CAPACITY);
      if found.Some? && m.registry.entries[found.value].state.Prepared? {
        ActivatedWithin(cfg, m.registry.entries, m.retired, found.value, node, -1);
        MovesSound(cfg, m, d, h, [], m.registry.(entries := Activated(Superseding(m.registry.entries, node, -1),
                                                                      found.value)));
      }
    }
  }

  lemma AlongsideSound(cfg: Config, m: Mem, d: Disk, h: History, node: u64, generation: u64)
    requires SystemInv(cfg, m, d, h)
    ensures Sound(cfg, d, h, AlongsidePlan(cfg, m, node, generation))
    ensures TrackAll(h, d, AlongsidePlan(cfg, m, node, generation).writes) == h
  {
    var p := AlongsidePlan(cfg, m, node, generation);
    if m.health == Ready && cfg.role.Receiver? {
      var found := Find(m.registry.entries, node, generation, BINDING_CAPACITY);
      if found.Some? && m.registry.entries[found.value].state.Prepared? {
        var keep := Keep(m, node, BINDING_CAPACITY);
        ActivatedWithin(cfg, m.registry.entries, m.retired, found.value, node, keep);
        MovesSound(cfg, m, d, h, [], m.registry.(entries := Activated(Superseding(m.registry.entries, node, keep),
                                                                      found.value)));
      }
    }
  }

  /** Revoking entries never exceeds a limit. */
  lemma RevokedWithin(cfg: Config, es: Entries, retired: seq<Retired>, next: Entries)
    requires Validated(cfg, es, retired)
    requires forall i | 0 <= i < BINDING_CAPACITY :: next[i] == es[i] || next[i] == es[i].(state := Revoked)
    ensures ActiveWithin(cfg, next)
  {
    forall i | 0 <= i < BINDING_CAPACITY && next[i].state.Active?
      ensures ActiveOf(next, next[i].node, BINDING_CAPACITY) <= ActiveLimit(cfg.role)
    {
      FewerActive(es, next, next[i].node, BINDING_CAPACITY);
    }
  }

  lemma RevokeSound(cfg: Config, m: Mem, d: Disk, h: History, node: u64, generation: u64)
    requires SystemInv(cfg, m, d, h)
    ensures Sound(cfg, d, h, RevokePlan(m, node, generation))
    ensures TrackAll(h, d, RevokePlan(m, node, generation).writes) == h
  {
    var p := RevokePlan(m, node, generation);
    if m.health == Ready {
      var es := m.registry.entries;
      var found := Find(es, node, generation, BINDING_CAPACITY);
      if found.Some? && !es[found.value].state.Revoked? {
        var next := es[found.value := Revoke(es[found.value])];
        RevokedWithin(cfg, es, m.retired, next);
        MovesSound(cfg, m, d, h, [], m.registry.(entries := next));
      }
    }
  }

  lemma ReserveSound(cfg: Config, m: Mem, d: Disk, h: History, b: Binding)
    requires SystemInv(cfg, m, d, h)
    ensures Sound(cfg, d, h, ReservePlan(cfg, m, b))
    ensures TrackAll(h, d, ReservePlan(cfg, m, b).writes) == h
  {
    var found := Authorized(m, b);
    if found.Some? && cfg.role.Transmitter? && m.registry.entries[found.value].counter != UINT64_MAX {
      var es := m.registry.entries;
      var e := es[found.value];
      var next := es[found.value := e.(counter := e.counter + 1)];
      forall i | 0 <= i < BINDING_CAPACITY && next[i].state.Active?
        ensures ActiveOf(next, next[i].node, BINDING_CAPACITY) <= ActiveLimit(cfg.role)
      {
        FewerActive(es, next, next[i].node, BINDING_CAPACITY);
      }
      MovesSound(cfg, m, d, h, [], m.registry.(entries := next));
    }
  }

  // ------------------------------------------------------------------ prepare

  lemma PlacedLive(cfg: Config, d: Disk, h: History, revision: u64, slot: nat, x: Credential)
    requires Inv(cfg, d, h) && cfg.role.Receiver? && slot < BINDING_CAPACITY
    requires Placeable(cfg, Reg(d), Ret(d), h, slot, x)
    ensures Live(Placed(Reg(d), revision, slot, x), d.receipts) == Live(Reg(d), d.receipts)[slot := NO_RECEIPT_RECORD]
  {
    var reg, r := Reg(d), Placed(Reg(d), revision, slot, x);
    forall i | 0 <= i < BINDING_CAPACITY
      ensures Live(r, d.receipts)[i] == Live(reg, d.receipts)[slot := NO_RECEIPT_RECORD][i]
    {
      if i == slot {
        assert ReceiptInv(reg, d.receipts, h, slot);
        assert r.entries[slot].generation == x.generation;
      }
    }
  }

  /** The memory after a placement is what a mount of the new registry recovers. */
  lemma PlaceAgrees(cfg: Config, m: Mem, d: Disk, h: History, slot: nat, x: Credential, revision: u64)
    requires SystemInv(cfg, m, d, h) && m.health == Ready && slot < BINDING_CAPACITY
    requires Placeable(cfg, m.registry, m.retired, h, slot, x)
    ensures
      var w := SaveRegistry(Placed(m.registry, revision, slot, x));
      Agrees(cfg, m.(registry := w.registry, receipts := m.receipts[slot := NO_RECEIPT_RECORD]),
             Apply(d, w), Track(h, d, w))
  {
    if cfg.role.Receiver? {
      PlacedLive(cfg, d, h, revision, slot, x);
    } else {
      assert NoReceipts()[slot := NO_RECEIPT_RECORD] == NoReceipts();
    }
  }

  /** Placing a new credential, after writes already shown safe. */
  lemma PlaceSound(cfg: Config, m: Mem, d: Disk, h: History, ws: seq<Write>, slot: nat, x: Credential)
    requires Safe(cfg, d, h, ws) && m.health == Ready && slot < BINDING_CAPACITY
    requires Agrees(cfg, m, ApplyAll(d, ws), TrackAll(h, d, ws))
    requires Placeable(cfg, m.registry, m.retired, TrackAll(h, d, ws), slot, x)
    requires cfg.role.Receiver? ==>
      NothingQueued(ApplyAll(d, ws).ring, Head(ApplyAll(d, ws)), |TrackAll(h, d, ws).log|, slot)
    ensures Sound(cfg, d, h, PrepareAt(m, ws, slot, x))
    ensures TrackAll(h, d, PrepareAt(m, ws, slot, x).writes).log == TrackAll(h, d, ws).log
  {
    hide Inv, Safe;
    SafeEnd(cfg, d, h, ws);
    if m.registry.revision != UINT64_MAX {
      var d1, h1, revision := ApplyAll(d, ws), TrackAll(h, d, ws), m.registry.revision + 1;
      CredentialSaved(cfg, d1, h1, revision, slot, x);
      SafeAppend(cfg, d, h, ws, SaveRegistry(Placed(m.registry, revision, slot, x)));
      PlaceAgrees(cfg, m, d1, h1, slot, x, revision);
    }
  }

  lemma EmptyHasNothingQueued(cfg: Config, d: Disk, h: History, slot: nat)
    requires Inv(cfg, d, h) && cfg.role.Receiver? && slot < BINDING_CAPACITY && Reg(d).entries[slot].state.Empty?
    ensures NothingQueued(d.ring, Head(d), |h.log|, slot)
  {
    forall s | Head(d) <= s < |h.log| ensures s % QUEUE_CAPACITY in d.ring ==> d.ring[s % QUEUE_CAPACITY].slot != slot {
      assert RingHolds(Reg(d), d.ring, s, h.log[s]);
    }
  }

  /** A credential that passes the checks of prepare is new to the device. */
  lemma FreshCredential(cfg: Config, m: Mem, d: Disk, h: History, x: Credential)
    requires SystemInv(cfg, m, d, h) && m.health == Ready && Allowed(cfg, m, d, h, OpPrepare(x))
    requires !IsRetired(m.retired, x.generation, cfg.c.fingerprint(x.key))
    requires !Clashes(m.registry.entries, x.node, x.generation, x.key)
    ensures x.generation !in h.goneGenerations && x.key !in h.goneKeys
    ensures forall i | 0 <= i < BINDING_CAPACITY ::
      !Reg(d).entries[i].state.Empty? ==> cfg.c.fingerprint(Reg(d).entries[i].key) != cfg.c.fingerprint(x.key)
  {
  }

  /** Retiring one more credential makes only that one retired. */
  lemma RetireOnly(c: Crypto, l: RetiredList, e: Entry, generation: u64, mark: u64)
    requires IsRetired(RetireOnce(c, l, e), generation, mark)
    ensures IsRetired(l, generation, mark) || generation == e.generation || mark == c.fingerprint(e.key)
  {
    var r := RetireOnce(c, l, e);
    var i :| 0 <= i < |r| && (r[i].generation == generation || r[i].fingerprint == mark);
    if r != l && i < |r| - 1 {
      var j := if |l| == RETIRED_CAPACITY then i + 1 else i;
      assert l[j] == r[i];
    }
  }

  lemma RetireFits(c: Crypto, l: RetiredList, e: Entry)
    requires RetiredFits(l) && e.generation != 0
    ensures RetiredFits(RetireOnce(c, l, e))
  {
  }

  /** Freeing a revoked slot: its credential joins the retired list before it leaves the registry. */
  lemma ReclaimSafe(cfg: Config, m: Mem, d: Disk, h: History, slot: nat)
    requires SystemInv(cfg, m, d, h) && m.health == Ready && slot < BINDING_CAPACITY
    requires m.registry.entries[slot].state.Revoked?
    ensures
      var l := RetireOnce(cfg.c, m.retired, m.registry.entries[slot]);
      && Safe(cfg, d, h, [SaveRetired(l)])
      && ApplyAll(d, [SaveRetired(l)]) == Apply(d, SaveRetired(l))
      && TrackAll(h, d, [SaveRetired(l)]) == h
      && Agrees(cfg, m.(retired := l), Apply(d, SaveRetired(l)), h)
  {
    var e := m.registry.entries[slot];
    var l := RetireOnce(cfg.c, m.retired, e);
    assert m.registry != NO_REGISTRY;
    assert EntryFits(cfg.role, cfg.device, m.registry.receiver, e);
    RetireFits(cfg.c, m.retired, e);
    forall i | 0 <= i < BINDING_CAPACITY && !Reg(d).entries[i].state.Empty? && !Reg(d).entries[i].state.Revoked?
      ensures !IsRetired(l, Reg(d).entries[i].generation, cfg.c.fingerprint(Reg(d).entries[i].key))
    {
      if IsRetired(l, Reg(d).entries[i].generation, cfg.c.fingerprint(Reg(d).entries[i].key)) {
        RetireOnly(cfg.c, m.retired, e, Reg(d).entries[i].generation, cfg.c.fingerprint(Reg(d).entries[i].key));
        assert false;
      }
    }
    RetiredSaved(cfg, d, h, l);
    assert Safe(cfg, d, h, []);
    SafeAppend(cfg, d, h, [], SaveRetired(l));
    assert [] + [SaveRetired(l)] == [SaveRetired(l)];
  }

  lemma PrepareSound(cfg: Config, m: Mem, d: Disk, h: History, x: Credential)
    requires SystemInv(cfg, m, d, h) && Allowed(cfg, m, d, h, OpPrepare(x))
    ensures Sound(cfg, d, h, PreparePlan(cfg, m, x))
    ensures TrackAll(h, d, PreparePlan(cfg, m, x).writes).log == h.log
  {
    hide Inv, WellFormed, Clashes, IsRetired, SameNetwork, RetireOnce, Allowed;
    var p := PreparePlan(cfg, m, x);
    if p.writes != [] || p.result == StorageError {
      if m.health == Ready {
        FreshCredential(cfg, m, d, h, x);
        var es := m.registry.entries;
        var empty := FirstEmpty(es, BINDING_CAPACITY);
        if empty.Some? {
          if cfg.role.Receiver? {
            EmptyHasNothingQueued(cfg, d, h, empty.value);
          }
          PlaceSound(cfg, m, d, h, [], empty.value, x);
        } else {
          var slot := Reclaimable(m, BINDING_CAPACITY).value;
          ReclaimSound(cfg, m, d, h, slot, x);
        }
      }
    }
  }

  lemma ReclaimSound(cfg: Config, m: Mem, d: Disk, h: History, slot: nat, x: Credential)
    requires SystemInv(cfg, m, d, h) && m.health == Ready && Allowed(cfg, m, d, h, OpPrepare(x))
    requires slot < BINDING_CAPACITY && IsReclaimable(m, slot)
    requires WellFormed(cfg, x) && (m.registry.network == 0 || SameNetwork(m.registry, x))
    requires !IsRetired(m.retired, x.generation, cfg.c.fingerprint(x.key))
    requires !Clashes(m.registry.entries, x.node, x.generation, x.key)
    ensures
      var l := RetireOnce(cfg.c, m.retired, m.registry.entries[slot]);
      var p := PrepareAt(m.(retired := l), [SaveRetired(l)], slot, x);
      Sound(cfg, d, h, p) && TrackAll(h, d, p.writes).log == h.log
  {
    var e := m.registry.entries[slot];
    var l := RetireOnce(cfg.c, m.retired, e);
    FreshCredential(cfg, m, d, h, x);
    ReclaimSafe(cfg, m, d, h, slot);
    if IsRetired(l, x.generation, cfg.c.fingerprint(x.key)) {
      RetireOnly(cfg.c, m.retired, e, x.generation, cfg.c.fingerprint(x.key));
      assert false;
    }
    if cfg.role.Receiver? {
      CountZero(d.ring, Head(d), |h.log|, slot);
    }
    PlaceSound(cfg, m.(retired := l), d, h, [SaveRetired(l)], slot, x);
  }

  // ------------------------------------------------------------------ forwarded

  lemma {:induction false} CountFront(ring: map<nat, QueueRecord>, lo: nat, hi: nat, slot: nat)
    requires lo < hi
    ensures CountIn(ring, lo, hi, slot)
         == CountIn(ring, lo + 1, hi, slot)
            + if lo % QUEUE_CAPACITY in ring && ring[lo % QUEUE_CAPACITY].slot == slot then 1 else 0
  {
    if lo + 1 < hi {
      CountFront(ring, lo, hi - 1, slot);
    }
  }

  /** Leaving the front takes one from its slot's count and from no other. */
  lemma CountsFront(ring: map<nat, QueueRecord>, lo: nat, hi: nat)
    requires lo < hi && lo % QUEUE_CAPACITY in ring && ring[lo % QUEUE_CAPACITY].slot < BINDING_CAPACITY
    ensures
      var slot := ring[lo % QUEUE_CAPACITY].slot;
      var n := CountsOf(ring, lo, hi);
      CountsOf(ring, lo + 1, hi) == n[slot := Less(n[slot])]
  {
    var slot := ring[lo % QUEUE_CAPACITY].slot;
    var n, after := CountsOf(ring, lo, hi), CountsOf(ring, lo + 1, hi);
    var expected := n[slot := Less(n[slot])];
    forall i | 0 <= i < BINDING_CAPACITY ensures after[i] == expected[i] {
      CountFront(ring, lo, hi, i);
    }
  }

  /** Removing the front of a non-empty queue. */
  lemma AdvanceSound(cfg: Config, m: Mem, d: Disk, h: History, slot: nat)
    requires SystemInv(cfg, m, d, h) && m.health == Ready && cfg.role.Receiver? && m.head < m.tail
    requires slot < BINDING_CAPACITY && m.head % QUEUE_CAPACITY in d.ring
      && slot == d.ring[m.head % QUEUE_CAPACITY].slot
    ensures
      var ws := [SaveHead(m.head + 1)];
      && Safe(cfg, d, h, ws) && TrackAll(h, d, ws) == h && ApplyAll(d, ws) == Apply(d, SaveHead(m.head + 1))
      && Agrees(cfg, m.(head := m.head + 1, queuedBySlot := m.queuedBySlot[slot := Less(m.queuedBySlot[slot])]),
                ApplyAll(d, ws), h)
  {
    hide Open, Validated, ReceiptInv, Owned, LogInv, CarriedInv;
    HeadSaved(cfg, d, h, m.head + 1);
    assert Safe(cfg, d, h, []);
    SafeAppend(cfg, d, h, [], SaveHead(m.head + 1));
    assert [] + [SaveHead(m.head + 1)] == [SaveHead(m.head + 1)];
    CountsFront(d.ring, m.head, m.tail);
  }

  /** The front of a healthy queue reads back as the oldest accepted sample not yet given up. */
  lemma FrontIs(cfg: Config, m: Mem, d: Disk, h: History)
    requires SystemInv(cfg, m, d, h) && m.health == Ready && cfg.role.Receiver? && m.head < m.tail
    ensures m.head < |h.log| && FrontHealth(m, d) == Ready && Peek(cfg, m, d).Some?
    ensures
      var s, a := Peek(cfg, m, d).value, h.log[m.head];
      && s.node == a.node && s.generation == a.generation && s.counter == a.counter && s.link == a.link
      && Open(cfg.c, Binding(a.network, a.node, a.key, true), a.frame).Done?
      && s.data == Open(cfg.c, Binding(a.network, a.node, a.key, true), a.frame).value.data
    ensures
      var slot := d.ring[m.head % QUEUE_CAPACITY].slot;
      slot < BINDING_CAPACITY && Holds(m.registry.entries[slot], h.log[m.head].node, h.log[m.head].generation)
  {
    var a := h.log[m.head];
    assert RingHolds(Reg(d), d.ring, m.head, a);
    var slot := LastQueuedReceipt(cfg.c, Reg(d), Head(d), d.receipts, d.ring, h, m.head);
    assert Opens(cfg.c, a);
  }

  lemma ValidatedNow(cfg: Config, m: Mem, d: Disk, h: History)
    requires SystemInv(cfg, m, d, h) && m.health == Ready
    ensures Validated(cfg, m.registry.entries, m.retired)
  {
    hide QueueInv, Validated;
  }

  lemma ForwardedSound(cfg: Config, m: Mem, d: Disk, h: History, node: u64, generation: u64, counter: u64)
    requires SystemInv(cfg, m, d, h)
    ensures Sound(cfg, d, h, ForwardedPlan(cfg, m, d, node, generation, counter))
    ensures TrackAll(h, d, ForwardedPlan(cfg, m, d, node, generation, counter).writes) == h
  {
    hide Inv, Open, Find, Validated, CountsOf;
    if m.health == Ready && cfg.role.Receiver? && m.head < m.tail {
      FrontIs(cfg, m, d, h);
      var a := h.log[m.head];
      if node == a.node && generation == a.generation && counter == a.counter {
        var slot := d.ring[m.head % QUEUE_CAPACITY].slot;
        var found := Find(m.registry.entries, node, generation, BINDING_CAPACITY);
        ValidatedNow(cfg, m, d, h);
        FoundUnique(cfg, m.registry.entries, m.retired, slot, found.value);
        AdvanceSound(cfg, m, d, h, slot);
      }
    }
  }

  // ------------------------------------------------------------------ commit

  lemma {:induction false} CountFrame(a: map<nat, QueueRecord>, b: map<nat, QueueRecord>, lo: nat, hi: nat, slot: nat)
    requires lo <= hi
    requires forall s | lo <= s < hi ::
      var i := s % QUEUE_CAPACITY; i in a && i in b && a[i] == b[i]
    ensures CountIn(a, lo, hi, slot) == CountIn(b, lo, hi, slot)
  {
    if lo < hi {
      CountFrame(a, b, lo, hi - 1, slot);
    }
  }

  /** Appending a record at the tail adds one to its slot's count and to no other. */
  lemma CountsBack(ring: map<nat, QueueRecord>, lo: nat, hi: nat, q: QueueRecord)
    requires lo <= hi < lo + QUEUE_CAPACITY && q.sequence == hi && q.slot < BINDING_CAPACITY
    requires forall s | lo <= s < hi :: s % QUEUE_CAPACITY in ring
    ensures
      var n := CountsOf(ring, lo, hi);
      CountsOf(ring[hi % QUEUE_CAPACITY := q], lo, hi + 1) == n[q.slot := n[q.slot] + 1]
  {
    var now := ring[hi % QUEUE_CAPACITY := q];
    var n, after := CountsOf(ring, lo, hi), CountsOf(now, lo, hi + 1);
    var expected := n[q.slot := n[q.slot] + 1];
    forall s | lo <= s < hi ensures s % QUEUE_CAPACITY in now && now[s % QUEUE_CAPACITY] == ring[s % QUEUE_CAPACITY] {
      RingApart(s, hi);
    }
    forall i | 0 <= i < BINDING_CAPACITY ensures after[i] == expected[i] {
      CountFrame(ring, now, lo, hi, i);
    }
  }

  lemma CommittedLive(reg: Registry, receipts: map<nat, ReceiptRecord>, slot: nat, r: ReceiptRecord)
    requires slot < BINDING_CAPACITY && !reg.entries[slot].state.Empty? && reg.entries[slot].generation == r.generation
    ensures Live(reg, receipts[slot := r]) == Live(reg, receipts)[slot := r]
  {
  }

  /** The facts a commit has checked before it writes. */
  ghost predicate Checked(cfg: Config, m: Mem, h: History, slot: nat, b: Binding, receipt: Receipt)
  {
    && m.health == Ready && cfg.role.Receiver? && Queued(m) < QUEUE_CAPACITY
    && slot < BINDING_CAPACITY && Matches(m.registry.entries[slot], b)
    && b.active && b.network == m.registry.network
    && Acceptable(cfg.c, b, m.receipts[slot].counter, receipt)
    && |h.log| < UINT64_MAX
    && (FrameVersion(receipt.last) == WIRE_V2 || receipt.ackPower == KEEP_POWER)
  }

  function ItemOf(m: Mem, slot: nat, receipt: Receipt): QueueRecord
    requires slot < BINDING_CAPACITY
  {
    QueueRecord(m.tail, m.registry.entries[slot].generation, slot, receipt.last, NormalLink(receipt.link))
  }

  function RecordOf(m: Mem, slot: nat, receipt: Receipt): ReceiptRecord
    requires slot < BINDING_CAPACITY
  {
    ReceiptRecord(m.registry.entries[slot].generation, m.tail + 1, receipt.counter, receipt.last, receipt.ackPower)
  }

  /** What a successful commit adds to the log. */
  function AcceptedBy(m: Mem, slot: nat, receipt: Receipt): Accepted
    requires slot < BINDING_CAPACITY
  {
    Committed(m.registry, slot, RecordOf(m, slot, receipt), NormalLink(receipt.link))
  }

  function Received(m: Mem, slot: nat, receipt: Receipt): Mem
    requires slot < BINDING_CAPACITY
  {
    m.(receipts := m.receipts[slot := RecordOf(m, slot, receipt)], tail := m.tail + 1,
       queuedBySlot := m.queuedBySlot[slot := m.queuedBySlot[slot] + 1])
  }

  lemma ItemCommittable(cfg: Config, m: Mem, d: Disk, h: History, slot: nat, b: Binding, receipt: Receipt)
    requires SystemInv(cfg, m, d, h) && Checked(cfg, m, h, slot, b, receipt)
    ensures
      var d1 := Apply(d, SaveQueue(ItemOf(m, slot, receipt)));
      && Inv(cfg, d1, h) && d1.registry.Some?
      && Committable(cfg, d1, h, slot, RecordOf(m, slot, receipt), NormalLink(receipt.link))
  {
    hide Open, Validated, Owned, CarriedInv;
    assert m.registry != NO_REGISTRY;
    assert EntryFits(cfg.role, cfg.device, m.registry.receiver, m.registry.entries[slot]);
    OpenedFields(cfg.c, b, receipt.last);
    QueueSaved(cfg, d, h, ItemOf(m, slot, receipt));
    assert ReceiptInv(Reg(d), d.receipts, h, slot);
    assert BindingOf(m.registry.entries[slot], m.registry.network) == b;
  }

  lemma QueuedInRing(cfg: Config, m: Mem, d: Disk, h: History)
    requires SystemInv(cfg, m, d, h) && m.health == Ready && cfg.role.Receiver?
    ensures m.head == Head(d) <= m.tail == |h.log|
    ensures forall s | m.head <= s < m.tail :: s % QUEUE_CAPACITY in d.ring
  {
    forall s | m.head <= s < m.tail ensures s % QUEUE_CAPACITY in d.ring {
      assert RingHolds(Reg(d), d.ring, s, h.log[s]);
    }
  }

  lemma ReceivedAgrees(cfg: Config, m: Mem, d: Disk, h: History, slot: nat, b: Binding, receipt: Receipt)
    requires SystemInv(cfg, m, d, h) && Checked(cfg, m, h, slot, b, receipt)
    ensures
      var d1 := Apply(d, SaveQueue(ItemOf(m, slot, receipt)));
      var d2 := Apply(d1, SaveReceipt(slot, RecordOf(m, slot, receipt)));
      Agrees(cfg, Received(m, slot, receipt), d2,
             h.(log := h.log + [AcceptedBy(m, slot, receipt)]))
  {
    hide Inv, Acceptable, LoadDisk, Live, CountsOf, AcceptedBy;
    QueuedInRing(cfg, m, d, h);
    var record, item := RecordOf(m, slot, receipt), ItemOf(m, slot, receipt);
    CommittedLive(Reg(d), d.receipts, slot, record);
    CountsBack(d.ring, m.head, m.tail, item);
    var d2 := Apply(Apply(d, SaveQueue(item)), SaveReceipt(slot, record));
    assert Reg(d2) == Reg(d) && Ret(d2) == Ret(d) && Head(d2) == Head(d);
    assert d2.receipts == d.receipts[slot := record] && d2.ring == d.ring[m.tail % QUEUE_CAPACITY := item];
  }

  /** The sample the receipt commits is the one received. */
  lemma CommittedSame(cfg: Config, m: Mem, d: Disk, h: History, slot: nat, b: Binding, receipt: Receipt)
    requires SystemInv(cfg, m, d, h) && Checked(cfg, m, h, slot, b, receipt)
    ensures cfg.role.Receiver? && slot < BINDING_CAPACITY
    ensures StoreSafety.After(h, Reg(d), slot, RecordOf(m, slot, receipt), NormalLink(receipt.link))
         == h.(log := h.log + [AcceptedBy(m, slot, receipt)])
  {
    hide Inv, Acceptable;
  }

  /** The two writes of an acceptance, from one durable state. */
  lemma ReceiveSteps(cfg: Config, m: Mem, d: Disk, h: History, slot: nat, b: Binding, receipt: Receipt)
    requires SystemInv(cfg, m, d, h) && Checked(cfg, m, h, slot, b, receipt)
    ensures
      var q, r := SaveQueue(ItemOf(m, slot, receipt)), SaveReceipt(slot, RecordOf(m, slot, receipt));
      var t := h.(log := h.log + [AcceptedBy(m, slot, receipt)]);
      && Inv(cfg, Apply(d, q), h) && Track(h, d, q) == h
      && Inv(cfg, Apply(Apply(d, q), r), t) && Track(h, Apply(d, q), r) == t
      && Agrees(cfg, Received(m, slot, receipt), Apply(Apply(d, q), r), t)
  {
    hide SystemInv, Checked, Inv, Agrees, Received, AcceptedBy, ItemOf, RecordOf, Committable, StoreSafety.After,
      QueueFits;
    CommittedSame(cfg, m, d, h, slot, b, receipt);
    ItemCommittable(cfg, m, d, h, slot, b, receipt);
    ReceiptSaved(cfg, Apply(d, SaveQueue(ItemOf(m, slot, receipt))), h, slot,
                 RecordOf(m, slot, receipt), NormalLink(receipt.link));
    ReceivedAgrees(cfg, m, d, h, slot, b, receipt);
  }

  lemma SafeAppendTwo(cfg: Config, d: Disk, h: History, ws: seq<Write>, q: Write, r: Write)
    requires Safe(cfg, d, h, ws)
    requires
      var d1, h1 := ApplyAll(d, ws), TrackAll(h, d, ws);
      var d2, h2 := Apply(d1, q), Track(h1, d1, q);
      Inv(cfg, d2, h2) && Inv(cfg, Apply(d2, r), Track(h2, d2, r))
    ensures Safe(cfg, d, h, ws + [q, r])
    ensures ApplyAll(d, ws + [q, r]) == Apply(Apply(ApplyAll(d, ws), q), r)
    ensures
      var d1, h1 := ApplyAll(d, ws), TrackAll(h, d, ws);
      TrackAll(h, d, ws + [q, r]) == Track(Track(h1, d1, q), Apply(d1, q), r)
  {
    hide Inv;
    SafeAppend(cfg, d, h, ws, q);
    SafeAppend(cfg, d, h, ws + [q], r);
    assert ws + [q] + [r] == ws + [q, r];
  }

  /** The two writes of an acceptance, after writes already shown safe. */
  lemma ReceiveSafe(cfg: Config, m: Mem, d: Disk, h: History, ws: seq<Write>, slot: nat, b: Binding, receipt: Receipt)
    requires Safe(cfg, d, h, ws) && Agrees(cfg, m, ApplyAll(d, ws), TrackAll(h, d, ws))
    requires Checked(cfg, m, TrackAll(h, d, ws), slot, b, receipt)
    ensures
      var all := ws + [SaveQueue(ItemOf(m, slot, receipt)), SaveReceipt(slot, RecordOf(m, slot, receipt))];
      var t := TrackAll(h, d, ws);
      && Safe(cfg, d, h, all)
      && TrackAll(h, d, all) == t.(log := t.log + [AcceptedBy(m, slot, receipt)])
      && Agrees(cfg, Received(m, slot, receipt), ApplyAll(d, all), TrackAll(h, d, all))
  {
    hide Inv, Agrees, Checked, Safe, ItemOf, RecordOf, Received, AcceptedBy;
    SafeEnd(cfg, d, h, ws);
    ReceiveSteps(cfg, m, ApplyAll(d, ws), TrackAll(h, d, ws), slot, b, receipt);
    SafeAppendTwo(cfg, d, h, ws, SaveQueue(ItemOf(m, slot, receipt)), SaveReceipt(slot, RecordOf(m, slot, receipt)));
  }

  lemma AcceptSound(cfg: Config, m: Mem, d: Disk, h: History, ws: seq<Write>, slot: nat, b: Binding, receipt: Receipt)
    requires Safe(cfg, d, h, ws) && Agrees(cfg, m, ApplyAll(d, ws), TrackAll(h, d, ws))
    requires Checked(cfg, m, TrackAll(h, d, ws), slot, b, receipt)
    requires Validated(cfg, m.registry.entries, m.retired)
    ensures Sound(cfg, d, h, AcceptPlan(m, ws, slot, b, receipt))
    ensures TrackAll(h, d, AcceptPlan(m, ws, slot, b, receipt).writes).log
         == TrackAll(h, d, ws).log + [AcceptedBy(m, slot, receipt)]
  {
    hide Inv, Safe, Agrees, Acceptable, Validated, AcceptedBy, Apply, Track;
    ReceiveSafe(cfg, m, d, h, ws, slot, b, receipt);
    var all := ws + [SaveQueue(ItemOf(m, slot, receipt)), SaveReceipt(slot, RecordOf(m, slot, receipt))];
    var es := m.registry.entries;
    var next := Superseding(es, b.node, slot);
    if next != es {
      RevokedWithin(cfg, es, m.retired, next);
      MovesSound(cfg, Received(m, slot, receipt), d, h, all, m.registry.(entries := next));
    }
  }

  /** Memory after a full queue gave up its oldest sample. */
  function Evicted(m: Mem, oldest: nat): Mem
    requires oldest < BINDING_CAPACITY
  {
    m.(head := m.head + 1, dropped := m.dropped + 1,
       queuedBySlot := m.queuedBySlot[oldest := Less(m.queuedBySlot[oldest])])
  }

  lemma EvictSound(cfg: Config, m: Mem, d: Disk, h: History)
    requires SystemInv(cfg, m, d, h) && m.health == Ready && cfg.role.Receiver? && m.head < m.tail
    ensures
      var ws := [SaveHead(m.head + 1)];
      && FrontHealth(m, d) == Ready
      && Safe(cfg, d, h, ws) && TrackAll(h, d, ws) == h
      && Agrees(cfg, Evicted(m, d.ring[m.head % QUEUE_CAPACITY].slot), ApplyAll(d, ws), h)
  {
    FrontIs(cfg, m, d, h);
    hide Inv, Safe;
    AdvanceSound(cfg, m, d, h, d.ring[m.head % QUEUE_CAPACITY].slot);
  }

  lemma CommitFullSound(cfg: Config, m: Mem, d: Disk, h: History, slot: nat, b: Binding, receipt: Receipt)
    requires SystemInv(cfg, m, d, h) && Queued(m) == QUEUE_CAPACITY
    requires Checked(cfg, m.(head := m.head + 1), h, slot, b, receipt)
    ensures
      var ws := [SaveHead(m.head + 1)];
      && FrontHealth(m, d) == Ready
      && Sound(cfg, d, h, AcceptPlan(Evicted(m, d.ring[m.head % QUEUE_CAPACITY].slot), ws, slot, b, receipt))
  {
    EvictSound(cfg, m, d, h);
    assert Validated(cfg, m.registry.entries, m.retired);
    hide Inv, Safe, Agrees, Acceptable, Validated, FrontHealth, AcceptPlan;
    AcceptSound(cfg, Evicted(m, d.ring[m.head % QUEUE_CAPACITY].slot), d, h, [SaveHead(m.head + 1)], slot, b, receipt);
  }

  /** A commit that passed its checks appends exactly its sample; any other appends nothing. */
  lemma CommitSound(cfg: Config, m: Mem, d: Disk, h: History, b: Binding, expected: u64, receipt: Receipt)
    requires SystemInv(cfg, m, d, h) && Allowed(cfg, m, d, h, OpCommit(b, expected, receipt))
    ensures Sound(cfg, d, h, CommitPlan(cfg, m, d, b, expected, receipt))
  {
    hide AcceptPlan, FrontHealth, Acceptable, Open;
    assert m.health == Ready ==> Validated(cfg, m.registry.entries, m.retired);
    assert m.health == Ready && cfg.role.Receiver? ==> 0 <= Queued(m) <= QUEUE_CAPACITY;
    hide Inv, Validated;
    var found := Authorized(m, b);
    if found.Some? && cfg.role.Receiver? && m.receipts[found.value].counter == expected
       && Acceptable(cfg.c, b, expected, receipt) {
      if Queued(m) == QUEUE_CAPACITY {
        CommitFullSound(cfg, m, d, h, found.value, b, receipt);
      } else {
        AcceptSound(cfg, m, d, h, [], found.value, b, receipt);
      }
    }
  }

  // ------------------------------------------------------------------ reset

  lemma {:induction false} RetireAllFits(c: Crypto, l: RetiredList, es: Entries, n: nat)
    requires n <= BINDING_CAPACITY && RetiredFits(l)
    requires forall i | 0 <= i < BINDING_CAPACITY :: !es[i].state.Empty? ==> es[i].generation != 0
    ensures RetiredFits(RetireAll(c, l, es, n))
  {
    if n != 0 {
      RetireAllFits(c, l, es, n - 1);
    }
  }

  lemma RevokeAllSound(cfg: Config, m: Mem, d: Disk, h: History)
    requires SystemInv(cfg, m, d, h) && m.health == Ready
    ensures
      var p := SaveNext(m, [], m.registry.(entries := AllRevoked(m.registry.entries)), m);
      && Sound(cfg, d, h, p) && TrackAll(h, d, p.writes) == h
      && (p.result == Ok ==> ApplyAll(d, p.writes).registry == Some(p.after.registry))
  {
    var es := m.registry.entries;
    RevokedWithin(cfg, es, m.retired, AllRevoked(es));
    MovesSound(cfg, m, d, h, [], m.registry.(entries := AllRevoked(es)));
  }

  /** With every enrollment revoked, the retired list and then the head may be written. */
  lemma RetireAndDropSafe(cfg: Config, m: Mem, d: Disk, h: History, ws: seq<Write>, l: RetiredList, drop: bool)
    requires Safe(cfg, d, h, ws) && TrackAll(h, d, ws) == h && ApplyAll(d, ws).registry.Some?
    requires Agrees(cfg, m, ApplyAll(d, ws), h) && m.health == Ready && RetiredFits(l)
    requires forall i | 0 <= i < BINDING_CAPACITY ::
      m.registry.entries[i].state.Empty? || m.registry.entries[i].state.Revoked?
    requires drop || m.head == m.tail
    ensures
      var all := ws + [SaveRetired(l)] + if drop then [SaveHead(m.tail)] else [];
      var d2 := ApplyAll(d, all);
      && Safe(cfg, d, h, all) && TrackAll(h, d, all) == h
      && Reg(d2) == m.registry && Ret(d2) == l && (cfg.role.Receiver? ==> Head(d2) == |h.log| == m.tail)
  {
    hide Inv, Safe;
    SafeEnd(cfg, d, h, ws);
    RetiredSaved(cfg, ApplyAll(d, ws), h, l);
    SafeAppend(cfg, d, h, ws, SaveRetired(l));
    if drop {
      HeadSaved(cfg, ApplyAll(d, ws + [SaveRetired(l)]), h, m.tail);
      SafeAppend(cfg, d, h, ws + [SaveRetired(l)], SaveHead(m.tail));
    } else {
      assert ws + [SaveRetired(l)] + [] == ws + [SaveRetired(l)];
    }
  }

  lemma EmptyCounts(ring: map<nat, QueueRecord>, n: nat)
    ensures CountsOf(ring, n, n) == NoCounts()
  {
  }

  lemma EmptySound(cfg: Config, m: Mem, d: Disk, h: History, ws: seq<Write>)
    requires Safe(cfg, d, h, ws) && TrackAll(h, d, ws) == h && m.health == Ready
    requires Reg(ApplyAll(d, ws)) == m.registry && Ret(ApplyAll(d, ws)) == m.retired
    requires cfg.role.Receiver? ==> Head(ApplyAll(d, ws)) == |h.log| == m.tail == m.head
    requires cfg.role.Transmitter? ==> m.head == m.tail == 0
    ensures Sound(cfg, d, h, SaveNext(m, ws, NO_REGISTRY, m.(receipts := NoReceipts(), queuedBySlot := NoCounts())))
    ensures TrackAll(h, d, SaveNext(m, ws, NO_REGISTRY,
                                    m.(receipts := NoReceipts(), queuedBySlot := NoCounts())).writes).log == h.log
  {
    hide Inv, Safe;
    SafeEnd(cfg, d, h, ws);
    if m.registry.revision != UINT64_MAX {
      var d1 := ApplyAll(d, ws);
      var r := NO_REGISTRY.(revision := m.registry.revision + 1);
      EmptySaved(cfg, d1, h, m.registry.revision + 1);
      SafeAppend(cfg, d, h, ws, SaveRegistry(r));
      EmptyCounts(d1.ring, m.tail);
      assert Live(r, d1.receipts) == NoReceipts();
    }
  }

  lemma ResetSound(cfg: Config, m: Mem, d: Disk, h: History, discardQueue: bool)
    requires SystemInv(cfg, m, d, h)
    ensures Sound(cfg, d, h, ResetPlan(cfg, m, discardQueue))
    ensures TrackAll(h, d, ResetPlan(cfg, m, discardQueue).writes).log == h.log
  {
    hide QueueInv, RetireAll, AllRevoked, MarksApart;
    if m.health == Ready && (Queued(m) == 0 || discardQueue) {
      var es := m.registry.entries;
      var l := RetireAll(cfg.c, m.retired, es, BINDING_CAPACITY);
      var first := SaveNext(m, [], m.registry.(entries := AllRevoked(es)), m);
      RevokeAllSound(cfg, m, d, h);
      if first.result == Ok {
        forall i | 0 <= i < BINDING_CAPACITY ensures !es[i].state.Empty? ==> es[i].generation != 0 {
          if !es[i].state.Empty? {
            assert m.registry != NO_REGISTRY;
            assert EntryFits(cfg.role, cfg.device, m.registry.receiver, es[i]);
          }
        }
        RetireAllFits(cfg.c, m.retired, es, BINDING_CAPACITY);
        RetireAndDropSafe(cfg, first.after, d, h, first.writes, l, Queued(m) != 0);
        var ws := first.writes + [SaveRetired(l)] + if Queued(m) != 0 then [SaveHead(m.tail)] else [];
        EmptySound(cfg, first.after.(retired := l, head := m.tail), d, h, ws);
      }
    }
  }

  // ------------------------------------------------------------------ all operations

  /** Any operation the environment may call, from any state the store can be in, is sound. */
  lemma OperationSound(cfg: Config, m: Mem, d: Disk, h: History, op: Op)
    requires SystemInv(cfg, m, d, h) && Allowed(cfg, m, d, h, op)
    ensures Sound(cfg, d, h, PlanOf(cfg, m, d, op))
    ensures !op.OpCommit? ==> TrackAll(h, d, PlanOf(cfg, m, d, op).writes).log == h.log
  {
    match op
    case OpPrepare(x) => PrepareSound(cfg, m, d, h, x);
    case OpActivate(node, generation) => ActivateSound(cfg, m, d, h, node, generation);
    case OpAlongside(node, generation) => AlongsideSound(cfg, m, d, h, node, generation);
    case OpRevoke(node, generation) => RevokeSound(cfg, m, d, h, node, generation);
    case OpReserve(b) => ReserveSound(cfg, m, d, h, b);
    case OpCommit(b, expected, receipt) => CommitSound(cfg, m, d, h, b, expected, receipt);
    case OpForwarded(node, generation, counter) => ForwardedSound(cfg, m, d, h, node, generation, counter);
    case OpReset(discardQueue) => ResetSound(cfg, m, d, h, discardQueue);
  }
}
