// Which single record writes keep the invariant.
module StoreSafety {
  import opened Protocol
  import opened Records
  import opened Store
  import opened StoreInvariant

  // ------------------------------------------------------------------ active generations

  lemma {:induction false} FewerActive(a: Entries, b: Entries, node: u64, n: nat)
    requires n <= BINDING_CAPACITY
    requires forall i | 0 <= i < n :: b[i].state.Active? && b[i].node == node ==>
      a[i].state.Active? && a[i].node == node
    ensures ActiveOf(b, node, n) <= ActiveOf(a, node, n)
  {
    if n != 0 {
      FewerActive(a, b, node, n - 1);
    }
  }

  /** Only slots `p` and `q` can be active for the node: at most one or two are. */
  lemma {:induction false} AtMostTwo(es: Entries, node: u64, p: int, q: int, n: nat)
    requires n <= BINDING_CAPACITY
    requires forall i | 0 <= i < n :: es[i].state.Active? && es[i].node == node ==> i == p || i == q
    ensures ActiveOf(es, node, n) <= (if 0 <= p < n then 1 else 0) + (if q != p && 0 <= q < n then 1 else 0)
  {
    if n != 0 {
      AtMostTwo(es, node, p, q, n - 1);
    }
  }

  // ------------------------------------------------------------------ registry writes that keep credentials

  /** A legal state change of one entry; counters may move on a transmitter. */
  predicate Moves(a: Entry, b: Entry)
  {
    || a == b
    || (&& !a.state.Empty? && a.node == b.node && a.generation == b.generation && a.key == b.key
        && (b.state == a.state || b.state.Revoked? || (a.state.Prepared? && b.state.Active?))
        && (b.counter == a.counter || b.state.Active?))
  }

  ghost predicate SameCredentials(a: Registry, b: Registry)
  {
    && a.network == b.network && a.receiver == b.receiver && a.profile == b.profile
    && (forall i | 0 <= i < BINDING_CAPACITY :: Moves(a.entries[i], b.entries[i]))
  }

  ghost predicate ActiveWithin(cfg: Config, es: Entries)
  {
    forall i | 0 <= i < BINDING_CAPACITY ::
      es[i].state.Active? ==> ActiveOf(es, es[i].node, BINDING_CAPACITY) <= ActiveLimit(cfg.role)
  }

  lemma SameSets(a: Entries, b: Entries)
    requires forall i | 0 <= i < BINDING_CAPACITY :: Moves(a[i], b[i])
    ensures Generations(a) == Generations(b) && Keys(a) == Keys(b)
    ensures forall g :: HasGeneration(a, g) <==> HasGeneration(b, g)
    ensures forall k :: HasKey(a, k) <==> HasKey(b, k)
  {
    forall g ensures g in Generations(a) <==> g in Generations(b) {
      if g in Generations(a) {
        var i :| 0 <= i < BINDING_CAPACITY && !a[i].state.Empty? && a[i].generation == g;
        assert Moves(a[i], b[i]);
      }
      if g in Generations(b) {
        var i :| 0 <= i < BINDING_CAPACITY && !b[i].state.Empty? && b[i].generation == g;
        assert Moves(a[i], b[i]);
      }
    }
    forall k ensures k in Keys(a) <==> k in Keys(b) {
      if k in Keys(a) {
        var i :| 0 <= i < BINDING_CAPACITY && !a[i].state.Empty? && a[i].key == k;
        assert Moves(a[i], b[i]);
      }
      if k in Keys(b) {
        var i :| 0 <= i < BINDING_CAPACITY && !b[i].state.Empty? && b[i].key == k;
        assert Moves(a[i], b[i]);
      }
    }
    forall g ensures HasGeneration(a, g) <==> HasGeneration(b, g) {
      assert HasGeneration(a, g) <==> g in Generations(a);
      assert HasGeneration(b, g) <==> g in Generations(b);
    }
    forall k ensures HasKey(a, k) <==> HasKey(b, k) {
      assert HasKey(a, k) <==> k in Keys(a);
      assert HasKey(b, k) <==> k in Keys(b);
    }
  }

  lemma MovesValidated(cfg: Config, a: Entries, b: Entries, retired: seq<Retired>)
    requires Validated(cfg, a, retired) && MarksApart(cfg.c, a)
    requires forall i | 0 <= i < BINDING_CAPACITY :: Moves(a[i], b[i])
    requires ActiveWithin(cfg, b)
    ensures Validated(cfg, b, retired) && MarksApart(cfg.c, b)
  {
    forall i, j | 0 <= i < BINDING_CAPACITY && 0 <= j < BINDING_CAPACITY && i != j
      ensures !b[i].state.Empty? && !b[j].state.Empty? ==> Apart(b[i], b[j])
      ensures !b[i].state.Empty? && !b[j].state.Empty? ==> cfg.c.fingerprint(b[i].key) != cfg.c.fingerprint(b[j].key)
    {
      assert Moves(a[i], b[i]) && Moves(a[j], b[j]);
    }
    forall i | 0 <= i < BINDING_CAPACITY && !b[i].state.Empty? && !b[i].state.Revoked?
      ensures !IsRetired(retired, b[i].generation, cfg.c.fingerprint(b[i].key))
    {
      assert Moves(a[i], b[i]);
    }
  }

  lemma MovesOwned(a: Registry, b: Registry, receipts: map<nat, ReceiptRecord>, h: History, x: Accepted)
    requires SameCredentials(a, b) && Owned(a, receipts, h, x)
    ensures Owned(b, receipts, h, x)
  {
    SameSets(a.entries, b.entries);
    forall s | 0 <= s < BINDING_CAPACITY && !b.entries[s].state.Empty?
      ensures (b.entries[s].generation == x.generation || b.entries[s].key == x.key) ==> OwnedBy(b, receipts, s, x)
    {
      assert Moves(a.entries[s], b.entries[s]);
      if a.entries[s].generation == x.generation || a.entries[s].key == x.key {
        assert OwnedBy(a, receipts, s, x);
      }
    }
  }

  /** A known credential is not prepared, so it does not become active. */
  lemma StaysResting(a: Registry, b: Registry, receipts: map<nat, ReceiptRecord>, h: History, x: Accepted)
    requires SameCredentials(a, b) && Owned(a, receipts, h, x) && !ActiveGeneration(a.entries, x.generation)
    requires forall s | 0 <= s < BINDING_CAPACITY :: ReceiptInv(a, receipts, h, s)
    ensures !ActiveGeneration(b.entries, x.generation)
  {
    forall i | 0 <= i < BINDING_CAPACITY && !a.entries[i].state.Empty? && a.entries[i].generation == x.generation
      ensures a.entries[i].state.Revoked?
    {
      assert OwnedBy(a, receipts, i, x) && ReceiptInv(a, receipts, h, i);
    }
    forall i | 0 <= i < BINDING_CAPACITY && b.entries[i].state.Active? ensures b.entries[i].generation != x.generation {
      assert Moves(a.entries[i], b.entries[i]);
    }
  }

  lemma MovesQueue(c: Crypto, a: Registry, b: Registry, head: nat, receipts: map<nat, ReceiptRecord>,
                   ring: map<nat, QueueRecord>, h: History)
    requires SameCredentials(a, b) && QueueInv(c, a, head, receipts, ring, h)
    ensures QueueInv(c, b, head, receipts, ring, h)
  {
    forall x | x in h.log || x in h.origin.carried ensures Owned(b, receipts, h, x) {
      assert Owned(a, receipts, h, x);
      MovesOwned(a, b, receipts, h, x);
    }
    forall x | x in h.origin.carried && x.generation !in h.origin.serving ensures !ActiveGeneration(b.entries,
        x.generation) {
      StaysResting(a, b, receipts, h, x);
    }
    forall s | 0 <= s < BINDING_CAPACITY ensures ReceiptInv(b, receipts, h, s) {
      assert ReceiptInv(a, receipts, h, s) && Moves(a.entries[s], b.entries[s]);
    }
    forall s | head <= s < |h.log| ensures RingHolds(b, ring, s, h.log[s]) {
      assert RingHolds(a, ring, s, h.log[s]);
      var slot := ring[s % QUEUE_CAPACITY].slot;
      assert Moves(a.entries[slot], b.entries[slot]);
    }
  }

  /** Writing a registry with the same credentials in later states keeps every durable rule. */
  lemma StatesSaved(cfg: Config, d: Disk, h: History, r: Registry)
    requires Inv(cfg, d, h) && SameCredentials(Reg(d), r)
    requires RegistryFits(cfg.role, cfg.device, r) && ActiveWithin(cfg, r.entries)
    ensures Track(h, d, SaveRegistry(r)) == h
    ensures Inv(cfg, Apply(d, SaveRegistry(r)), h)
  {
    var a := Reg(d);
    SameSets(a.entries, r.entries);
    MovesValidated(cfg, a.entries, r.entries, Ret(d));
    assert Generations(a.entries) - Generations(r.entries) == {} && Keys(a.entries) - Keys(r.entries) == {};
    forall i | 0 <= i < BINDING_CAPACITY
      ensures !r.entries[i].state.Empty? ==>
        r.entries[i].generation !in h.goneGenerations && r.entries[i].key !in h.goneKeys
    {
      assert Moves(a.entries[i], r.entries[i]);
    }
    if cfg.role.Receiver? {
      MovesQueue(cfg.c, a, r, Head(d), d.receipts, d.ring, h);
    }
  }

  // ------------------------------------------------------------------ a new credential in a slot

  /** The slot is empty or revoked, and no entry or retirement is known that the credential repeats. */
  ghost predicate Fitting(cfg: Config, reg: Registry, retired: RetiredList, slot: nat, x: Credential)
    requires slot < BINDING_CAPACITY
  {
    && WellFormed(cfg, x)
    && (reg.network == 0 || SameNetwork(reg, x))
    && (reg.entries[slot].state.Empty? || reg.entries[slot].state.Revoked?)
    && !Clashes(reg.entries, x.node, x.generation, x.key)
    && !IsRetired(retired, x.generation, cfg.c.fingerprint(x.key))
  }

  /** Moreover the credential is new to the device. */
  ghost predicate Placeable(cfg: Config, reg: Registry, retired: RetiredList, h: History, slot: nat, x: Credential)
    requires slot < BINDING_CAPACITY
  {
    && Fitting(cfg, reg, retired, slot, x)
    && x.generation !in h.goneGenerations && x.key !in h.goneKeys
    && (forall i | 0 <= i < BINDING_CAPACITY ::
          !reg.entries[i].state.Empty? ==> cfg.c.fingerprint(reg.entries[i].key) != cfg.c.fingerprint(x.key))
  }

  function Placed(reg: Registry, revision: u64, slot: nat, x: Credential): Registry
    requires slot < BINDING_CAPACITY
  {
    Registry(revision, x.network, x.receiver, x.profile,
             reg.entries[slot := Entry(Prepared, x.node, x.generation, 0, x.key)])
  }

  /** No queued sample belongs to the slot. */
  ghost predicate NothingQueued(ring: map<nat, QueueRecord>, lo: nat, hi: nat, slot: nat)
  {
    forall s | lo <= s < hi :: s % QUEUE_CAPACITY in ring ==> ring[s % QUEUE_CAPACITY].slot != slot
  }

  lemma {:induction false} CountZero(ring: map<nat, QueueRecord>, lo: nat, hi: nat, slot: nat)
    requires lo <= hi && CountIn(ring, lo, hi, slot) == 0
    ensures NothingQueued(ring, lo, hi, slot)
  {
    if lo < hi {
      CountZero(ring, lo, hi - 1, slot);
    }
  }

  /** A registry without a network has no entries. */
  lemma NoNetworkNoEntries(cfg: Config, reg: Registry)
    requires reg == NO_REGISTRY || RegistryFits(cfg.role, cfg.device, reg)
    requires reg.network == 0
    ensures forall i | 0 <= i < BINDING_CAPACITY :: reg.entries[i].state.Empty?
  {
    if reg != NO_REGISTRY {
      forall i | 0 <= i < BINDING_CAPACITY ensures reg.entries[i].state.Empty? {
        if !reg.entries[i].state.Empty? {
          OccupiedPositive(reg.entries, i, BINDING_CAPACITY);
          assert false;
        }
      }
    }
  }

  lemma {:induction false} OccupiedPositive(es: Entries, i: nat, n: nat)
    requires i < n <= BINDING_CAPACITY && !es[i].state.Empty?
    ensures Occupied(es, n) > 0
  {
    if i < n - 1 {
      OccupiedPositive(es, i, n - 1);
    }
  }

  lemma PlacedFits(cfg: Config, reg: Registry, retired: RetiredList, revision: u64, slot: nat, x: Credential)
    requires slot < BINDING_CAPACITY && revision != 0
    requires reg == NO_REGISTRY || RegistryFits(cfg.role, cfg.device, reg)
    requires Fitting(cfg, reg, retired, slot, x)
    ensures RegistryFits(cfg.role, cfg.device, Placed(reg, revision, slot, x))
  {
    var r := Placed(reg, revision, slot, x);
    if reg.network == 0 {
      NoNetworkNoEntries(cfg, reg);
    }
    forall i | 0 <= i < BINDING_CAPACITY
      ensures r.entries[i] == NO_ENTRY || EntryFits(cfg.role, cfg.device, r.receiver, r.entries[i])
    {
      if i != slot {
        assert reg.entries[i] == NO_ENTRY || EntryFits(cfg.role, cfg.device, reg.receiver, reg.entries[i]);
      }
    }
  }

  lemma PlacedMarks(cfg: Config, reg: Registry, retired: RetiredList, h: History, revision: u64, slot: nat,
                    x: Credential)
    requires slot < BINDING_CAPACITY && MarksApart(cfg.c, reg.entries)
    requires Placeable(cfg, reg, retired, h, slot, x)
    ensures MarksApart(cfg.c, Placed(reg, revision, slot, x).entries)
  {
    hide Fitting;
  }

  lemma PlacedValidated(cfg: Config, reg: Registry, retired: RetiredList, revision: u64, slot: nat, x: Credential)
    requires slot < BINDING_CAPACITY && Validated(cfg, reg.entries, retired)
    requires Fitting(cfg, reg, retired, slot, x)
    ensures Validated(cfg, Placed(reg, revision, slot, x).entries, retired)
  {
    var es := Placed(reg, revision, slot, x).entries;
    forall i | 0 <= i < BINDING_CAPACITY && es[i].state.Active?
      ensures ActiveOf(es, es[i].node, BINDING_CAPACITY) <= ActiveLimit(cfg.role)
    {
      FewerActive(reg.entries, es, es[i].node, BINDING_CAPACITY);
    }
  }

  lemma PlacedGone(reg: Registry, h: History, d: Disk, revision: u64, slot: nat, x: Credential, cfg: Config,
                   retired: RetiredList)
    requires slot < BINDING_CAPACITY && reg == Reg(d)
    requires Validated(cfg, reg.entries, retired) && NotGone(reg.entries, h)
    requires Placeable(cfg, reg, retired, h, slot, x)
    ensures
      var r := Placed(reg, revision, slot, x);
      var t := Track(h, d, SaveRegistry(r));
      && NotGone(r.entries, t)
      && t.log == h.log && h.goneGenerations <= t.goneGenerations && h.goneKeys <= t.goneKeys
      && (!reg.entries[slot].state.Empty? ==>
            reg.entries[slot].generation in t.goneGenerations && reg.entries[slot].key in t.goneKeys)
  {
    var r := Placed(reg, revision, slot, x);
    var e := reg.entries[slot];
    assert r.entries[slot].generation == x.generation && r.entries[slot].key == x.key;
    if !e.state.Empty? {
      assert e.generation in Generations(reg.entries) && e.key in Keys(reg.entries);
      assert e.generation !in Generations(r.entries);
      assert e.key !in Keys(r.entries);
    }
    forall i | 0 <= i < BINDING_CAPACITY && !r.entries[i].state.Empty?
      ensures r.entries[i].generation !in Generations(reg.entries) - Generations(r.entries)
      ensures r.entries[i].key !in Keys(reg.entries) - Keys(r.entries)
      ensures r.entries[i].generation !in h.goneGenerations && r.entries[i].key !in h.goneKeys
    {
      assert r.entries[i].generation in Generations(r.entries) && r.entries[i].key in Keys(r.entries);
    }
  }

  /** The new credential owns nothing in the log; the replaced one is gone; the others are untouched. */
  lemma PlacedOwned(reg: Registry, r: Registry, slot: nat, receipts: map<nat, ReceiptRecord>, h: History, t: History,
                    a: Accepted)
    requires slot < BINDING_CAPACITY && Owned(reg, receipts, h, a)
    requires forall i | 0 <= i < BINDING_CAPACITY && i != slot :: r.entries[i] == reg.entries[i]
    requires !r.entries[slot].state.Empty?
    requires r.network == reg.network || forall i | 0 <= i < BINDING_CAPACITY :: reg.entries[i].state.Empty?
    requires h.goneGenerations <= t.goneGenerations && h.goneKeys <= t.goneKeys
    requires !reg.entries[slot].state.Empty? ==>
      reg.entries[slot].generation in t.goneGenerations && reg.entries[slot].key in t.goneKeys
    requires NotGone(r.entries, t)
    requires forall i | 0 <= i < BINDING_CAPACITY && !reg.entries[i].state.Empty? ::
      reg.entries[i].generation != r.entries[slot].generation && reg.entries[i].key != r.entries[slot].key
    ensures Owned(r, receipts, t, a)
  {
    if a.generation !in t.goneGenerations {
      var i :| 0 <= i < BINDING_CAPACITY && !reg.entries[i].state.Empty? && reg.entries[i].generation == a.generation;
      assert r.entries[i] == reg.entries[i];
    }
    if a.key !in t.goneKeys {
      var i :| 0 <= i < BINDING_CAPACITY && !reg.entries[i].state.Empty? && reg.entries[i].key == a.key;
      assert r.entries[i] == reg.entries[i];
    }
    forall s | 0 <= s < BINDING_CAPACITY && !r.entries[s].state.Empty?
      && (r.entries[s].generation == a.generation || r.entries[s].key == a.key)
      ensures OwnedBy(r, receipts, s, a)
    {
      assert s != slot;
      assert OwnedBy(reg, receipts, s, a);
    }
  }

  lemma PlacedQueue(cfg: Config, d: Disk, h: History, revision: u64, slot: nat, x: Credential)
    requires Inv(cfg, d, h) && cfg.role.Receiver? && slot < BINDING_CAPACITY
    requires Placeable(cfg, Reg(d), Ret(d), h, slot, x)
    requires NothingQueued(d.ring, Head(d), |h.log|, slot)
    ensures
      var r := Placed(Reg(d), revision, slot, x);
      QueueInv(cfg.c, r, Head(d), d.receipts, d.ring, Track(h, d, SaveRegistry(r)))
  {
    hide Owned, ReceiptInv, RingHolds, CredentialInv, LogInv, CarriedInv, Resting, Placeable, Placed, NothingQueued;
    var reg := Reg(d);
    var r := Placed(reg, revision, slot, x);
    var t := Track(h, d, SaveRegistry(r));
    forall a | a in h.log || a in h.origin.carried ensures Owned(r, d.receipts, t, a) {
      PlacedSample(cfg, d, h, revision, slot, x, a);
    }
    forall s | 0 <= s < BINDING_CAPACITY ensures ReceiptInv(r, d.receipts, t, s) {
      PlacedReceipt(cfg, d, h, revision, slot, x, s);
    }
    forall s | Head(d) <= s < |h.log| ensures RingHolds(r, d.ring, s, h.log[s]) {
      PlacedRing(cfg, d, h, revision, slot, x, s);
    }
    PlacedResting(reg, revision, slot, x, h, t);
    SameSamples(cfg.c, h, t);
  }

  /** What is known of the samples does not depend on what was replaced. */
  lemma SameSamples(c: Crypto, h: History, t: History)
    requires t.log == h.log && t.origin == h.origin
    ensures LogInv(c, h.log, h.origin.base) ==> LogInv(c, t.log, t.origin.base)
    ensures CarriedInv(c, h) ==> CarriedInv(c, t)
  {
    hide SameOwner, Opens;
  }

  lemma PlacedSample(cfg: Config, d: Disk, h: History, revision: u64, slot: nat, x: Credential, a: Accepted)
    requires Inv(cfg, d, h) && cfg.role.Receiver? && slot < BINDING_CAPACITY
    requires Placeable(cfg, Reg(d), Ret(d), h, slot, x)
    requires a in h.log || a in h.origin.carried
    ensures
      var r := Placed(Reg(d), revision, slot, x);
      Owned(r, d.receipts, Track(h, d, SaveRegistry(r)), a)
  {
    var reg := Reg(d);
    var r := Placed(reg, revision, slot, x);
    assert Owned(reg, d.receipts, h, a);
    hide Owned, ReceiptInv, RingInv, LogInv, CarriedInv, Resting, RegistryFits, WellFormed;
    PlacedGone(reg, h, d, revision, slot, x, cfg, Ret(d));
    if reg.network == 0 {
      NoNetworkNoEntries(cfg, reg);
    }
    PlacedOwned(reg, r, slot, d.receipts, h, Track(h, d, SaveRegistry(r)), a);
  }

  lemma PlacedReceipt(cfg: Config, d: Disk, h: History, revision: u64, slot: nat, x: Credential, s: nat)
    requires Inv(cfg, d, h) && cfg.role.Receiver? && slot < BINDING_CAPACITY && s < BINDING_CAPACITY
    requires Placeable(cfg, Reg(d), Ret(d), h, slot, x)
    ensures
      var r := Placed(Reg(d), revision, slot, x);
      ReceiptInv(r, d.receipts, Track(h, d, SaveRegistry(r)), s)
  {
    var reg := Reg(d);
    assert ReceiptInv(reg, d.receipts, h, s);
    hide Owned, ReceiptInv, RingInv, LogInv, CarriedInv, Resting, RegistryFits, WellFormed;
    PlacedGone(reg, h, d, revision, slot, x, cfg, Ret(d));
    var t := Track(h, d, SaveRegistry(Placed(reg, revision, slot, x)));
    assert !Clashes(reg.entries, x.node, x.generation, x.key) && x.generation !in h.goneGenerations;
    hide Validated, CredentialInv, NotGone, Placeable;
    ReceiptKept(reg, revision, d.receipts, h, t, slot, x, s);
  }

  lemma ReceiptKept(reg: Registry, revision: u64, receipts: map<nat, ReceiptRecord>, h: History, t: History, slot: nat,
                    x: Credential, s: nat)
    requires slot < BINDING_CAPACITY && s < BINDING_CAPACITY && ReceiptInv(reg, receipts, h, s)
    requires t.log == h.log && t.origin == h.origin && h.goneGenerations <= t.goneGenerations
    requires !reg.entries[slot].state.Empty? ==> reg.entries[slot].generation in t.goneGenerations
    requires !Clashes(reg.entries, x.node, x.generation, x.key) && x.generation !in h.goneGenerations
    ensures ReceiptInv(Placed(reg, revision, slot, x), receipts, t, s)
  {
    hide Tells;
    if s in receipts && Tells(receipts[s], h) {
      SameTold(receipts[s], h, t);
    }
  }

  lemma SameTold(r: ReceiptRecord, h: History, t: History)
    requires t.log == h.log && t.origin == h.origin && Tells(r, h)
    ensures Tells(r, t)
  {
  }

  lemma PlacedRing(cfg: Config, d: Disk, h: History, revision: u64, slot: nat, x: Credential, s: nat)
    requires Inv(cfg, d, h) && cfg.role.Receiver? && slot < BINDING_CAPACITY
    requires Placeable(cfg, Reg(d), Ret(d), h, slot, x)
    requires NothingQueued(d.ring, Head(d), |h.log|, slot) && Head(d) <= s < |h.log|
    ensures RingHolds(Placed(Reg(d), revision, slot, x), d.ring, s, h.log[s])
  {
    assert RingHolds(Reg(d), d.ring, s, h.log[s]);
    hide Owned, ReceiptInv, LogInv, CarriedInv, Resting, RegistryFits, Validated, WellFormed;
    if Reg(d).network == 0 {
      NoNetworkNoEntries(cfg, Reg(d));
    }
  }

  /** A new credential starts prepared, so nothing becomes active. */
  lemma PlacedResting(reg: Registry, revision: u64, slot: nat, x: Credential, h: History, t: History)
    requires slot < BINDING_CAPACITY && Resting(reg.entries, h) && t.origin == h.origin
    ensures Resting(Placed(reg, revision, slot, x).entries, t)
  {
    var es := Placed(reg, revision, slot, x).entries;
    forall g | ActiveGeneration(es, g) ensures ActiveGeneration(reg.entries, g) {
      var i :| 0 <= i < BINDING_CAPACITY && es[i].state.Active? && es[i].generation == g;
      assert es[i] == reg.entries[i];
    }
  }

  /** Writing a registry with a new credential in a free slot keeps every durable rule. */
  lemma CredentialSaved(cfg: Config, d: Disk, h: History, revision: u64, slot: nat, x: Credential)
    requires Inv(cfg, d, h) && slot < BINDING_CAPACITY && revision != 0
    requires Placeable(cfg, Reg(d), Ret(d), h, slot, x)
    requires cfg.role.Receiver? ==> NothingQueued(d.ring, Head(d), |h.log|, slot)
    ensures
      var w := SaveRegistry(Placed(Reg(d), revision, slot, x));
      Inv(cfg, Apply(d, w), Track(h, d, w))
  {
    PlacedFits(cfg, Reg(d), Ret(d), revision, slot, x);
    PlacedValidated(cfg, Reg(d), Ret(d), revision, slot, x);
    PlacedMarks(cfg, Reg(d), Ret(d), h, revision, slot, x);
    PlacedGone(Reg(d), h, d, revision, slot, x, cfg, Ret(d));
    if cfg.role.Receiver? {
      PlacedQueue(cfg, d, h, revision, slot, x);
    }
  }

  // ------------------------------------------------------------------ emptying the registry

  /** Once nothing is queued, an empty registry leaves nothing to recover. */
  lemma EmptySaved(cfg: Config, d: Disk, h: History, revision: u64)
    requires Inv(cfg, d, h) && revision != 0
    requires cfg.role.Receiver? ==> Head(d) == |h.log|
    ensures
      var w := SaveRegistry(NO_REGISTRY.(revision := revision));
      Inv(cfg, Apply(d, w), Track(h, d, w))
  {
    hide QueueInv;
    var r := NO_REGISTRY.(revision := revision);
    EmptyTail(r.entries, 0, BINDING_CAPACITY);
    EmptyCredentials(cfg, d, h, revision);
    if cfg.role.Receiver? {
      EmptyQueue(cfg, d, h, revision);
    }
    hide CredentialInv, Validated, MarksApart, NotGone;
  }

  lemma EmptyCredentials(cfg: Config, d: Disk, h: History, revision: u64)
    requires Inv(cfg, d, h) && revision != 0
    ensures
      var r := NO_REGISTRY.(revision := revision);
      RegistryFits(cfg.role, cfg.device, r) && CredentialInv(cfg, r, Ret(d), Track(h, d, SaveRegistry(r)))
  {
    hide QueueInv;
    var r := NO_REGISTRY.(revision := revision);
    EmptyTail(r.entries, 0, BINDING_CAPACITY);
    assert Generations(r.entries) == {} && Keys(r.entries) == {};
  }

  lemma EmptyQueue(cfg: Config, d: Disk, h: History, revision: u64)
    requires Inv(cfg, d, h) && cfg.role.Receiver? && Head(d) == |h.log|
    ensures
      var r := NO_REGISTRY.(revision := revision);
      QueueInv(cfg.c, r, Head(d), d.receipts, d.ring, Track(h, d, SaveRegistry(r)))
  {
    hide Opens, SameOwner, CredentialInv, RegistryFits;
    var r := NO_REGISTRY.(revision := revision);
    var reg, t := Reg(d), Track(h, d, SaveRegistry(r));
    assert Generations(r.entries) == {} && Keys(r.entries) == {};
    forall a | a in h.log || a in h.origin.carried ensures Owned(r, d.receipts, t, a) {
      assert Owned(reg, d.receipts, h, a);
      assert HasGeneration(reg.entries, a.generation) ==> a.generation in Generations(reg.entries);
      assert HasKey(reg.entries, a.key) ==> a.key in Keys(reg.entries);
    }
    forall s | 0 <= s < BINDING_CAPACITY ensures ReceiptInv(r, d.receipts, t, s) {
      assert ReceiptInv(reg, d.receipts, h, s);
      if s in d.receipts && IsLive(reg, d.receipts, s) {
        assert reg.entries[s].generation in Generations(reg.entries);
      }
    }
    hide Owned, ReceiptInv, CredentialInv;
  }

  // ------------------------------------------------------------------ retired list, head, queue, receipt

  /** Retiring only revoked credentials keeps every durable rule. */
  lemma RetiredSaved(cfg: Config, d: Disk, h: History, l: RetiredList)
    requires Inv(cfg, d, h) && RetiredFits(l) && d.registry.Some?
    requires forall i | 0 <= i < BINDING_CAPACITY ::
      !Reg(d).entries[i].state.Empty? && !Reg(d).entries[i].state.Revoked? ==>
        !IsRetired(l, Reg(d).entries[i].generation, cfg.c.fingerprint(Reg(d).entries[i].key))
    ensures Inv(cfg, Apply(d, SaveRetired(l)), h)
  {
  }

  lemma HeadSaved(cfg: Config, d: Disk, h: History, n: nat)
    requires Inv(cfg, d, h) && d.registry.Some?
    requires cfg.role.Receiver? ==> Head(d) <= n <= |h.log|
    ensures Inv(cfg, Apply(d, SaveHead(n)), h)
  {
  }

  /** A queue record written at the tail, not yet referenced, disturbs no live one. */
  lemma QueueSaved(cfg: Config, d: Disk, h: History, q: QueueRecord)
    requires Inv(cfg, d, h) && cfg.role.Receiver? && d.registry.Some?
    requires q.sequence == |h.log| && |h.log| - Head(d) < QUEUE_CAPACITY
    ensures Inv(cfg, Apply(d, SaveQueue(q)), h)
  {
    var ring := Apply(d, SaveQueue(q)).ring;
    forall s | Head(d) <= s < |h.log| ensures RingHolds(Reg(d), ring, s, h.log[s]) {
      assert RingHolds(Reg(d), d.ring, s, h.log[s]);
      RingApart(s, |h.log|);
    }
  }

  /** Two sequences less than a ring apart have different records. */
  lemma RingApart(a: nat, b: nat)
    requires a < b < a + QUEUE_CAPACITY
    ensures a % QUEUE_CAPACITY != b % QUEUE_CAPACITY
  {
  }

  /** The accepted sample a receipt write commits. */
  function Committed(reg: Registry, slot: nat, r: ReceiptRecord, link: Link): Accepted
    requires slot < BINDING_CAPACITY
  {
    var e := reg.entries[slot];
    Accepted(e.node, r.generation, e.key, reg.network, r.counter, r.last, link, r.ackPower)
  }

  /** The receipt is the slot's next one and refers to the queue record written at the tail. */
  ghost predicate Committable(cfg: Config, d: Disk, h: History, slot: nat, r: ReceiptRecord, link: Link)
  {
    && slot < BINDING_CAPACITY
    && (var e := Reg(d).entries[slot];
        && e.state.Active? && e.generation == r.generation
        && (IsLive(Reg(d), d.receipts, slot) ==> d.receipts[slot].counter < r.counter))
    && r.through == |h.log| + 1 && |h.log| < UINT64_MAX && |h.log| - Head(d) < QUEUE_CAPACITY
    && |r.last| <= MAX_FRAME && LinkFits(link)
    && Opens(cfg.c, Committed(Reg(d), slot, r, link))
    && |h.log| % QUEUE_CAPACITY in d.ring
    && d.ring[|h.log| % QUEUE_CAPACITY] == QueueRecord(|h.log|, r.generation, slot, r.last, link)
  }

  /** The history once the receipt is written. */
  function After(h: History, reg: Registry, slot: nat, r: ReceiptRecord, link: Link): History
    requires slot < BINDING_CAPACITY
  {
    h.(log := h.log + [Committed(reg, slot, r, link)])
  }

  /** A sample of the slot's credential, accepted here or carried, is no newer than the slot's receipt. */
  lemma AtMostReceipt(reg: Registry, receipts: map<nat, ReceiptRecord>, h: History, slot: nat, a: Accepted)
    requires slot < BINDING_CAPACITY && !reg.entries[slot].state.Empty?
    requires Owned(reg, receipts, h, a) && ReceiptInv(reg, receipts, h, slot)
    requires a in h.log || a in h.origin.carried
    requires a.generation == reg.entries[slot].generation || a.key == reg.entries[slot].key
    ensures OwnedBy(reg, receipts, slot, a) && a.counter <= receipts[slot].counter
  {
    hide Told, Positioned;
    assert OwnedBy(reg, receipts, slot, a);
    assert Newest(receipts[slot], h);
  }

  /** Earlier samples of the slot's credential are the same owner's, with smaller counters. */
  lemma CommitOrder(cfg: Config, d: Disk, h: History, slot: nat, r: ReceiptRecord, link: Link, a: Accepted)
    requires Inv(cfg, d, h) && cfg.role.Receiver? && Committable(cfg, d, h, slot, r, link)
    requires a in h.log || a in h.origin.carried
    ensures SameOwner(a, Committed(Reg(d), slot, r, link)) && SameOwner(Committed(Reg(d), slot, r, link), a)
    ensures a.generation == r.generation ==> a.counter < r.counter
  {
    var reg := Reg(d);
    assert Owned(reg, d.receipts, h, a) && ReceiptInv(reg, d.receipts, h, slot);
    if a.generation == r.generation || a.key == reg.entries[slot].key {
      hide Inv, Opens;
      AtMostReceipt(reg, d.receipts, h, slot, a);
    }
  }

  lemma CommitLog(cfg: Config, d: Disk, h: History, slot: nat, r: ReceiptRecord, link: Link)
    requires Inv(cfg, d, h) && cfg.role.Receiver? && Committable(cfg, d, h, slot, r, link)
    ensures LogInv(cfg.c, After(h, Reg(d), slot, r, link).log, h.origin.base)
    ensures CarriedInv(cfg.c, After(h, Reg(d), slot, r, link))
  {
    var a := Committed(Reg(d), slot, r, link);
    forall b | b in h.log || b in h.origin.carried
      ensures SameOwner(b, a) && SameOwner(a, b) && (b.generation == a.generation ==> b.counter < a.counter)
    {
      CommitOrder(cfg, d, h, slot, r, link, b);
    }
    assert Opens(cfg.c, a) && SameOwner(a, a);
    assert LogInv(cfg.c, h.log, h.origin.base) && CarriedInv(cfg.c, h);
    hide Inv, Opens, Committable;
    LogExtended(cfg.c, h, a);
  }

  lemma LogExtended(c: Crypto, h: History, a: Accepted)
    requires LogInv(c, h.log, h.origin.base) && CarriedInv(c, h) && Opens(c, a) && SameOwner(a, a)
    requires forall b | b in h.log || b in h.origin.carried ::
      SameOwner(b, a) && SameOwner(a, b) && (b.generation == a.generation ==> b.counter < a.counter)
    ensures LogInv(c, h.log + [a], h.origin.base) && CarriedInv(c, h.(log := h.log + [a]))
  {
    hide Opens, SameOwner;
    var log := h.log + [a];
    forall i | 0 <= i < |h.log| ensures log[i] == h.log[i] && h.log[i] in h.log {
    }
  }

  lemma CommitReceipts(cfg: Config, d: Disk, h: History, slot: nat, r: ReceiptRecord, link: Link, s: nat)
    requires Inv(cfg, d, h) && cfg.role.Receiver? && Committable(cfg, d, h, slot, r, link) && s < BINDING_CAPACITY
    ensures ReceiptInv(Reg(d), d.receipts[slot := r], After(h, Reg(d), slot, r, link), s)
  {
    var reg, a := Reg(d), Committed(Reg(d), slot, r, link);
    assert ReceiptInv(reg, d.receipts, h, s);
    if s == slot {
      forall b | b in h.log || b in h.origin.carried ensures b.generation == r.generation ==> b.counter < r.counter {
        CommitOrder(cfg, d, h, slot, r, link, b);
      }
      assert h.origin.base <= |h.log| && !reg.entries[slot].state.Prepared? && ReceiptFits(r);
      hide Inv, Committable, Opens;
      NewReceiptTells(h, r, a);
    } else if s in d.receipts && IsLive(reg, d.receipts, s) {
      assert Apart(reg.entries[s], reg.entries[slot]);
      hide Inv, Committable;
      OtherReceiptKept(d.receipts[s], h, a);
    }
  }

  lemma NewReceiptTells(h: History, r: ReceiptRecord, a: Accepted)
    requires SameSample(r, a) && r.through == |h.log| + 1 && h.origin.base <= |h.log|
    requires forall b | b in h.log || b in h.origin.carried :: b.generation == r.generation ==> b.counter < r.counter
    ensures Tells(r, h.(log := h.log + [a]))
  {
    var log := h.log + [a];
    assert log[|h.log|] == a;
    forall j | 0 <= j < |h.log| ensures log[j] == h.log[j] && h.log[j] in h.log {
    }
  }

  /** A receipt still tells its sample after a sample of another generation. */
  lemma OtherReceiptKept(r: ReceiptRecord, h: History, a: Accepted)
    requires Tells(r, h) && r.generation != a.generation
    ensures Tells(r, h.(log := h.log + [a]))
  {
    var log := h.log + [a];
    assert forall j | 0 <= j < |h.log| :: log[j] == h.log[j];
  }

  lemma CommitOwned(cfg: Config, d: Disk, h: History, slot: nat, r: ReceiptRecord, link: Link)
    requires Inv(cfg, d, h) && cfg.role.Receiver? && Committable(cfg, d, h, slot, r, link)
    ensures
      var t := After(h, Reg(d), slot, r, link);
      && (forall i | 0 <= i < |t.log| :: Owned(Reg(d), d.receipts[slot := r], t, t.log[i]))
      && (forall b | b in t.origin.carried :: Owned(Reg(d), d.receipts[slot := r], t, b))
  {
    var reg, a, t := Reg(d), Committed(Reg(d), slot, r, link), After(h, Reg(d), slot, r, link);
    CommittedOwned(cfg, d, t, slot, r, a);
    forall b | b in h.log || b in h.origin.carried ensures Owned(reg, d.receipts[slot := r], t, b) {
      assert Owned(reg, d.receipts, h, b);
      CommittedKeepsOwned(reg, d.receipts, h, t, slot, r, b);
    }
    hide Inv, Committable, Owned;
    forall i | 0 <= i < |t.log| ensures Owned(reg, d.receipts[slot := r], t, t.log[i]) {
      assert t.log[i] == if i < |h.log| then h.log[i] else a;
    }
  }

  lemma CommitRing(cfg: Config, d: Disk, h: History, slot: nat, r: ReceiptRecord, link: Link)
    requires Inv(cfg, d, h) && cfg.role.Receiver? && Committable(cfg, d, h, slot, r, link)
    ensures
      var t := After(h, Reg(d), slot, r, link);
      |t.log| <= UINT64_MAX && RingInv(Reg(d), d.ring, Head(d), t.log)
  {
    var t := After(h, Reg(d), slot, r, link);
    forall s | Head(d) <= s < |t.log| ensures RingHolds(Reg(d), d.ring, s, t.log[s]) {
      if s < |h.log| {
        assert RingHolds(Reg(d), d.ring, s, h.log[s]);
      }
    }
    hide RingHolds, Owned, ReceiptInv, LogInv, CarriedInv, CredentialInv;
  }

  /** The receipt write is the commit point: it extends the log by exactly the queued sample. */
  lemma ReceiptSaved(cfg: Config, d: Disk, h: History, slot: nat, r: ReceiptRecord, link: Link)
    requires Inv(cfg, d, h) && cfg.role.Receiver? && d.registry.Some? && Committable(cfg, d, h, slot, r, link)
    ensures
      var w := SaveReceipt(slot, r);
      && Track(h, d, w) == After(h, Reg(d), slot, r, link)
      && Inv(cfg, Apply(d, w), Track(h, d, w))
  {
    hide Opens, Owned, ReceiptInv, RingInv, LogInv, CarriedInv, CredentialInv, Resting, After;
    CommitLog(cfg, d, h, slot, r, link);
    CommitOwned(cfg, d, h, slot, r, link);
    CommitRing(cfg, d, h, slot, r, link);
    var reg, receipts, t := Reg(d), d.receipts[slot := r], After(h, Reg(d), slot, r, link);
    forall s | 0 <= s < BINDING_CAPACITY ensures ReceiptInv(reg, receipts, t, s) {
      CommitReceipts(cfg, d, h, slot, r, link, s);
    }
    SameStanding(cfg, d, h, slot, r, link);
  }

  /** A commit leaves credentials, and what became of them, as they were. */
  lemma SameStanding(cfg: Config, d: Disk, h: History, slot: nat, r: ReceiptRecord, link: Link)
    requires Inv(cfg, d, h) && cfg.role.Receiver? && Committable(cfg, d, h, slot, r, link)
    ensures Track(h, d, SaveReceipt(slot, r)) == After(h, Reg(d), slot, r, link)
    ensures
      var t := After(h, Reg(d), slot, r, link);
      CredentialInv(cfg, Reg(d), Ret(d), t) && Resting(Reg(d).entries, t) && t.origin == h.origin
  {
    hide Opens, Owned, ReceiptInv, RingInv, LogInv, CarriedInv, Validated, RegistryFits;
  }

  lemma CommittedKeepsOwned(reg: Registry, receipts: map<nat, ReceiptRecord>, h: History, t: History, slot: nat,
                            r: ReceiptRecord, a: Accepted)
    requires slot < BINDING_CAPACITY && reg.entries[slot].generation == r.generation
    requires Owned(reg, receipts, h, a) && t.goneGenerations == h.goneGenerations && t.goneKeys == h.goneKeys
    ensures Owned(reg, receipts[slot := r], t, a)
  {
    forall s | 0 <= s < BINDING_CAPACITY && !reg.entries[s].state.Empty?
      && (reg.entries[s].generation == a.generation || reg.entries[s].key == a.key)
      ensures OwnedBy(reg, receipts[slot := r], s, a)
    {
      assert OwnedBy(reg, receipts, s, a);
    }
  }

  lemma CommittedOwned(cfg: Config, d: Disk, t: History, slot: nat, r: ReceiptRecord, a: Accepted)
    requires slot < BINDING_CAPACITY && !Reg(d).entries[slot].state.Empty?
    requires Validated(cfg, Reg(d).entries, Ret(d))
    requires r.generation == Reg(d).entries[slot].generation
    requires a.generation == r.generation && a.key == Reg(d).entries[slot].key
    requires a.node == Reg(d).entries[slot].node && a.network == Reg(d).network
    ensures Owned(Reg(d), d.receipts[slot := r], t, a)
  {
    var reg := Reg(d);
    forall s | 0 <= s < BINDING_CAPACITY && !reg.entries[s].state.Empty?
      && (reg.entries[s].generation == a.generation || reg.entries[s].key == a.key)
      ensures OwnedBy(reg, d.receipts[slot := r], s, a)
    {
      if s != slot {
        assert false;
      }
    }
  }
}
