// What pairing does to a store: the calls, in order, as one stretch of a run of the store.
module PairingStore {
  import opened Protocol
  import opened Records
  import opened Store
  import opened StoreInvariant
  import opened StoreSafety
  import opened StoreOps
  import opened StoreRuns
  import opened StoreServing
  import opened StoreObject
  import opened StoreLaws

  /** The credential is enrolled, under the network and receiver it names. */
  predicate Enrolled(m: Mem, x: Credential)
  {
    && m.health == Ready && m.registry.network == x.network && m.registry.receiver == x.receiver
    && exists i ::
         0 <= i < BINDING_CAPACITY && Carries(m.registry.entries[i], x) && !m.registry.entries[i].state.Revoked?
  }

  predicate Carries(e: Entry, x: Credential) { Holds(e, x.node, x.generation) && e.key == x.key }

  predicate InService(m: Mem, x: Credential)
  {
    && m.health == Ready && m.registry.network == x.network && m.registry.receiver == x.receiver
    && exists i :: 0 <= i < BINDING_CAPACITY && Carries(m.registry.entries[i], x) && m.registry.entries[i].state.Active?
  }

  /** A prepared enrollment of the node, which no sample can have used. */
  ghost predicate HasPrepared(m: Mem, node: u64, generation: u64)
  {
    exists i :: 0 <= i < BINDING_CAPACITY && Holds(m.registry.entries[i], node, generation)
      && m.registry.entries[i].state.Prepared?
  }

  ghost predicate Unused(h: History, generation: u64)
  {
    && (forall i | 0 <= i < |h.log| :: h.log[i].generation != generation)
    && (forall a | a in h.origin.carried :: a.generation != generation)
  }

  /**
   * The only operations pairing performs for a node and the generation it offers: it prepares
   * and activates, and revokes enrollments no sample ever used or the generation it offers.
   */
  ghost predicate Gentle(s: State, op: Op, node: u64, generation: u64)
  {
    match op
    case OpPrepare(x) => x.node == node && x.generation == generation
    case OpActivate(n, g) => n == node && g == generation
    case OpAlongside(n, g) => n == node && g == generation
    case OpRevoke(n, g) => n == node && (g == generation || Unused(s.h, g))
    case _ => false
  }

  /** A stretch of a run made of pairing's operations only. */
  ghost predicate Stretch(cfg: Config, ss: seq<State>, es: seq<Event>, node: u64, generation: u64)
  {
    && Run(cfg, ss, es)
    && forall i | 0 <= i < |es| :: !es[i].Remount? && Gentle(ss[i], es[i].op, node, generation)
  }

  lemma Nothing(cfg: Config, s: State, node: u64, generation: u64)
    ensures Stretch(cfg, [s], [], node, generation)
  {
  }

  /** One more call, whatever it did. */
  lemma OneMore(cfg: Config, ss: seq<State>, es: seq<Event>, op: Op, t: State, result: Result, node: u64,
                generation: u64)
    returns (e: Event)
    requires |ss| == |es| + 1
    requires Stretch(cfg, ss, es, node, generation) && Gentle(ss[|es|], op, node, generation)
    requires Followed(cfg, ss[|es|], op, t, result)
    ensures Stretch(cfg, ss + [t], es + [e], node, generation) && !e.Remount? && e.op == op
  {
    hide Step, Gentle;
    var s := ss[|es|];
    if Step(cfg, s, Finished(op), t) {
      e := Finished(op);
    } else {
      var k: nat :| Step(cfg, s, Cut(op, k), t);
      e := Cut(op, k);
    }
    var states, events := ss + [t], es + [e];
    forall i | 0 <= i < |events| ensures Step(cfg, states[i], events[i], states[i + 1]) {
      if i < |es| {
        assert Step(cfg, ss[i], es[i], ss[i + 1]);
      }
    }
  }

  lemma StretchShape(cfg: Config, ss: seq<State>, es: seq<Event>, node: u64, generation: u64)
    requires Stretch(cfg, ss, es, node, generation)
    ensures |ss| == |es| + 1 && forall i | 0 <= i < |es| :: !es[i].Remount?
  {
  }

  // ------------------------------------------------------------------ what the results mean

  lemma NetworkOfEntries(cfg: Config, s: State, i: nat)
    requires SystemInv(cfg, s.m, s.d, s.h) && s.m.health == Ready && i < BINDING_CAPACITY
    requires !s.m.registry.entries[i].state.Empty?
    ensures s.m.registry.network != 0
  {
    assert s.m.registry == Reg(s.d) && s.m.registry != NO_REGISTRY;
    if Reg(s.d).network == 0 {
      NoNetworkNoEntries(cfg, Reg(s.d));
    }
  }

  lemma PlacedEnrolls(m: Mem, ws: seq<Write>, slot: nat, x: Credential)
    requires slot < BINDING_CAPACITY && m.health == Ready && PrepareAt(m, ws, slot, x).result == Ok
    ensures Enrolled(PrepareAt(m, ws, slot, x).after, x)
  {
    assert Carries(PrepareAt(m, ws, slot, x).after.registry.entries[slot], x);
  }

  /** `prepare` returns Ok only when the credential is then enrolled and not revoked. */
  lemma PreparedMeans(cfg: Config, s: State, x: Credential)
    requires SystemInv(cfg, s.m, s.d, s.h) && PreparePlan(cfg, s.m, x).result == Ok
    ensures Enrolled(PreparePlan(cfg, s.m, x).after, x)
  {
    hide SystemInv, WellFormed, IsRetired, Clashes, RetireOnce, PrepareAt;
    var es := s.m.registry.entries;
    var existing := Find(es, x.node, x.generation, BINDING_CAPACITY);
    if existing.Some? {
      NetworkOfEntries(cfg, s, existing.value);
      assert Carries(es[existing.value], x);
    } else {
      var empty := FirstEmpty(es, BINDING_CAPACITY);
      if empty.Some? {
        PlacedEnrolls(s.m, [], empty.value, x);
      } else {
        var slot := Reclaimable(s.m, BINDING_CAPACITY).value;
        var l := RetireOnce(cfg.c, s.m.retired, es[slot]);
        PlacedEnrolls(s.m.(retired := l), [SaveRetired(l)], slot, x);
      }
    }
  }

  lemma FinishedOk(cfg: Config, s: State, op: Op, t: State)
    requires Followed(cfg, s, op, t, Ok)
    ensures t.m == PlanOf(cfg, s.m, s.d, op).after && PlanOf(cfg, s.m, s.d, op).result == Ok
  {
  }

  /** A refused call wrote nothing. */
  lemma RefusedUnchanged(cfg: Config, s: State, x: Credential, t: State)
    requires Followed(cfg, s, OpPrepare(x), t, Conflict)
    ensures t == s
  {
    PreparePlanned(cfg, s, x);
    hide WellFormed, IsRetired, Clashes, RetireOnce, Find, SameNetwork;
    var p := PreparePlan(cfg, s.m, x);
    assert p.result == Conflict ==> p.writes == [] && p.after == s.m;
  }

  /** Activating an enrolled credential makes exactly that one active. */
  lemma ActivatedMeans(cfg: Config, s: State, x: Credential)
    requires SystemInv(cfg, s.m, s.d, s.h) && Enrolled(s.m, x)
    ensures ActivatePlan(s.m, x.node, x.generation).result == Ok ==>
      InService(ActivatePlan(s.m, x.node, x.generation).after, x)
  {
    var i := EnrolledSlot(cfg, s, x);
    hide SystemInv;
    var p := ActivatePlan(s.m, x.node, x.generation);
    assert p.result == Ok ==> Carries(p.after.registry.entries[i], x) && p.after.registry.entries[i].state.Active?;
  }

  lemma AlongsideMeans(cfg: Config, s: State, x: Credential)
    requires SystemInv(cfg, s.m, s.d, s.h) && Enrolled(s.m, x)
    ensures AlongsidePlan(cfg, s.m, x.node, x.generation).result == Ok ==>
      InService(AlongsidePlan(cfg, s.m, x.node, x.generation).after, x)
  {
    var i := EnrolledSlot(cfg, s, x);
    hide SystemInv;
    var p := AlongsidePlan(cfg, s.m, x.node, x.generation);
    assert p.result == Ok ==> Carries(p.after.registry.entries[i], x) && p.after.registry.entries[i].state.Active?;
  }

  lemma EnrolledSlot(cfg: Config, s: State, x: Credential) returns (i: nat)
    requires SystemInv(cfg, s.m, s.d, s.h) && Enrolled(s.m, x)
    ensures i < BINDING_CAPACITY && Carries(s.m.registry.entries[i], x) && !s.m.registry.entries[i].state.Revoked?
    ensures Find(s.m.registry.entries, x.node, x.generation, BINDING_CAPACITY) == Some(i)
  {
    hide SystemInv;
    i :| 0 <= i < BINDING_CAPACITY && Carries(s.m.registry.entries[i], x) && !s.m.registry.entries[i].state.Revoked?;
    var found := Find(s.m.registry.entries, x.node, x.generation, BINDING_CAPACITY);
    OneSlotEach(cfg, s.m, s.d, s.h, i, found.value);
  }

  lemma RegistryOnDisk(cfg: Config, s: State)
    requires SystemInv(cfg, s.m, s.d, s.h)
    ensures s.m.health == Ready ==> s.m.registry == Reg(s.d)
  {
    hide Inv;
  }

  /** What a revocation leaves alone: the departed credentials, the retired list and every key. */
  lemma RevokeLeaves(cfg: Config, s: State, node: u64, generation: u64, t: State, result: Result)
    requires Followed(cfg, s, OpRevoke(node, generation), t, result) && SystemInv(cfg, s.m, s.d, s.h)
    ensures t.h == s.h && Ret(t.d) == Ret(s.d)
    ensures forall i | 0 <= i < BINDING_CAPACITY ::
      Reg(t.d).entries[i].key == Reg(s.d).entries[i].key
      && (Reg(t.d).entries[i].state.Empty? <==> Reg(s.d).entries[i].state.Empty?)
  {
    hide SystemInv, Followed, Find;
    RegistryOnDisk(cfg, s);
    var k := RevokedPrefix(cfg, s, node, generation, t, result);
    var ws := RevokePlan(s.m, node, generation).writes;
    if k == 0 {
      assert ws[..k] == [];
    } else {
      assert ws == [ws[0]] && ws[..k] == ws && ws[1..] == [];
      SameKeysEntries(Reg(s.d).entries, ws[0].registry.entries);
    }
  }

  /** Revoking keeps the conditions under which a credential may be prepared. */
  lemma RevokeKeepsAllowed(cfg: Config, s: State, node: u64, generation: u64, t: State, result: Result, x: Credential)
    requires Followed(cfg, s, OpRevoke(node, generation), t, result) && SystemInv(cfg, s.m, s.d, s.h)
    requires Allowed(cfg, s.m, s.d, s.h, OpPrepare(x))
    ensures Allowed(cfg, t.m, t.d, t.h, OpPrepare(x))
  {
    hide SystemInv, Followed, IsRetired, Reg, Ret;
    RevokeLeaves(cfg, s, node, generation, t, result);
  }

  lemma RevokedPrefix(cfg: Config, s: State, node: u64, generation: u64, t: State, result: Result) returns (k: nat)
    requires Followed(cfg, s, OpRevoke(node, generation), t, result)
    ensures
      var ws := RevokePlan(s.m, node, generation).writes;
      k <= |ws| <= 1 && t.d == ApplyAll(s.d, ws[..k]) && t.h == TrackAll(s.h, s.d, ws[..k])
  {
    ActivatePlanned(cfg, s, node, generation);
    var op := OpRevoke(node, generation);
    var ws := RevokePlan(s.m, node, generation).writes;
    hide PlanOf, ApplyAll, TrackAll, LoadDisk;
    if Step(cfg, s, Finished(op), t) {
      k := |ws|;
      assert ws[..k] == ws;
    } else {
      k :| Step(cfg, s, Cut(op, k), t);
    }
  }

  lemma SameKeysEntries(a: Entries, b: Entries)
    requires forall i | 0 <= i < BINDING_CAPACITY ::
      b[i].key == a[i].key && b[i].generation == a[i].generation && (b[i].state.Empty? <==> a[i].state.Empty?)
    ensures Keys(a) == Keys(b) && Generations(a) == Generations(b)
  {
  }

  // ------------------------------------------------------------------ it never cuts a node off

  /** No accepted sample used a prepared enrollment. */
  lemma PreparedIsUnused(cfg: Config, s: State, node: u64, generation: u64, a: Accepted)
    requires SystemInv(cfg, s.m, s.d, s.h) && s.m.health == Ready && cfg.role.Receiver?
    requires HasPrepared(s.m, node, generation) && (a in s.h.log || a in s.h.origin.carried)
    ensures a.generation != generation
  {
    var reg := Reg(s.d);
    assert s.m.registry == reg;
    var k :| 0 <= k < BINDING_CAPACITY && Holds(reg.entries[k], node, generation) && reg.entries[k].state.Prepared?;
    assert Owned(reg, s.d.receipts, s.h, a) && ReceiptInv(reg, s.d.receipts, s.h, k);
    hide SystemInv, Inv, Tells;
    assert a.generation == generation ==> OwnedBy(reg, s.d.receipts, k, a);
  }

  /**
   * A stretch of pairing with a generation no sample has used leaves every node served, at
   * every point, including the node being paired.
   */
  lemma {:induction false} PairingServes(cfg: Config, ss: seq<State>, es: seq<Event>, paired: u64, generation: u64,
                                         node: u64, n: nat)
    requires Stretch(cfg, ss, es, paired, generation) && n < |ss| && cfg.role.Receiver?
    requires SystemInv(cfg, ss[0].m, ss[0].d, ss[0].h) && Serving(Reg(ss[0].d), ss[0].h, node)
    requires Unused(ss[0].h, generation)
    requires forall i | 0 <= i < |es| :: es[i].Remount? || !es[i].op.OpActivate?
    ensures SystemInv(cfg, ss[n].m, ss[n].d, ss[n].h) && ss[n].h.log == ss[0].h.log && ss[n].h.origin == ss[0].h.origin
    ensures Serving(Reg(ss[n].d), ss[n].h, node)
  {
    hide SystemInv, Step, Serving, Gentle, Disruptive;
    if n != 0 {
      PairingServes(cfg, ss, es, paired, generation, node, n - 1);
      var s, e, t := ss[n - 1], es[n - 1], ss[n];
      assert Step(cfg, s, e, t) && Gentle(s, e.op, paired, generation);
      GentleIsMild(s, e.op, paired, generation, node);
      StepKeeps(cfg, s, e, t);
      LogKept(cfg, s, e, t);
      StepServes(cfg, s, e, t, node);
    }
  }

  lemma GentleIsMild(s: State, op: Op, paired: u64, generation: u64, node: u64)
    requires Gentle(s, op, paired, generation) && !op.OpActivate? && Unused(s.h, generation)
    ensures !Disruptive(op, s.h, node) && !op.OpCommit?
  {
  }

  lemma LogKept(cfg: Config, s: State, e: Event, t: State)
    requires SystemInv(cfg, s.m, s.d, s.h) && Step(cfg, s, e, t) && (e.Remount? || !e.op.OpCommit?)
    ensures t.h.log == s.h.log && t.h.origin == s.h.origin
  {
    hide SystemInv, PlanOf, Allowed, LoadDisk;
    if !e.Remount? {
      OperationSound(cfg, s.m, s.d, s.h, e.op);
      if e.Cut? {
        var ws := PlanOf(cfg, s.m, s.d, e.op).writes;
        PrefixOfSame(s.h, s.d, ws, e.k);
      }
    }
  }

  lemma PrefixOfSame(h: History, d: Disk, ws: seq<Write>, k: nat)
    requires k <= |ws| && TrackAll(h, d, ws).log == h.log
    ensures TrackAll(h, d, ws[..k]).log == h.log
  {
    TrackGrows(h, d, ws[..k]);
    GrowsFrom(h, d, ws, k);
    var log := TrackAll(h, d, ws[..k]).log;
    assert log == log[..|h.log|];
  }

  lemma {:induction false} GrowsFrom(h: History, d: Disk, ws: seq<Write>, k: nat)
    requires k <= |ws|
    ensures TrackAll(h, d, ws[..k]).log <= TrackAll(h, d, ws).log
    decreases ws
  {
    if k == 0 {
      TrackGrows(h, d, ws);
    } else {
      GrowsFrom(Track(h, d, ws[0]), Apply(d, ws[0]), ws[1..], k - 1);
      assert ws[1..][..k - 1] == ws[..k][1..];
    }
  }

  // ------------------------------------------------------------------ prepareFresh

  /** Every prepared enrollment of a healthy store is unused. */
  lemma AllPreparedUnused(cfg: Config, s: State)
    requires SystemInv(cfg, s.m, s.d, s.h) && s.m.health == Ready
    ensures forall i | 0 <= i < BINDING_CAPACITY && s.m.registry.entries[i].state.Prepared? ::
      Unused(s.h, s.m.registry.entries[i].generation)
  {
    if cfg.role.Receiver? {
      forall i, a | 0 <= i < BINDING_CAPACITY && s.m.registry.entries[i].state.Prepared?
        && (a in s.h.log || a in s.h.origin.carried)
        ensures a.generation != s.m.registry.entries[i].generation
      {
        var e := s.m.registry.entries[i];
        assert Holds(e, e.node, e.generation);
        PreparedIsUnused(cfg, s, e.node, e.generation, a);
      }
    } else {
      assert s.h.log == [] && s.h.origin.carried == {};
    }
  }

  lemma CallKeepsLog(cfg: Config, s: State, op: Op, t: State, result: Result)
    requires SystemInv(cfg, s.m, s.d, s.h) && Followed(cfg, s, op, t, result) && !op.OpCommit?
    ensures t.h.log == s.h.log && t.h.origin == s.h.origin
  {
    hide SystemInv, Step;
    if Step(cfg, s, Finished(op), t) {
      LogKept(cfg, s, Finished(op), t);
    } else {
      var k: nat :| Step(cfg, s, Cut(op, k), t);
      LogKept(cfg, s, Cut(op, k), t);
    }
  }

  lemma PrepareOkEnrolls(cfg: Config, s: State, x: Credential, t: State, result: Result)
    requires SystemInv(cfg, s.m, s.d, s.h) && Followed(cfg, s, OpPrepare(x), t, result)
    ensures result == Ok ==> Enrolled(t.m, x)
  {
    if result == Ok {
      hide SystemInv, PreparePlan, Enrolled;
      FinishedOk(cfg, s, OpPrepare(x), t);
      PreparePlanned(cfg, s, x);
      PreparedMeans(cfg, s, x);
    }
  }

  /** The node's own enrollment that no exchange completed. */
  predicate PendingAt(s: State, node: u64, i: nat)
  {
    i < BINDING_CAPACITY && s.m.registry.entries[i].node == node && s.m.registry.entries[i].state.Prepared?
  }

  /** The credential is new to the store, of its network, and there is room for it. */
  ghost predicate Joinable(cfg: Config, s: State, x: Credential)
  {
    && s.m.health == Ready && !Unfit(cfg, x) && !Foreign(s, x)
    && !Names(s.m.retired, Retired(x.generation, cfg.c.fingerprint(x.key)))
    && (forall i | 0 <= i < BINDING_CAPACITY && !s.m.registry.entries[i].state.Empty? ::
          s.m.registry.entries[i].key != x.key && s.m.registry.entries[i].generation != x.generation)
    && (exists i: nat :: EmptyAt(s, i) || SpentAt(s, i) || PendingAt(s, x.node, i))
    && s.m.registry.revision < UINT64_MAX - 3
  }

  /** The node's pending enrollments among the first `n` slots are revoked, and nothing else changed. */
  ghost predicate PendingRevoked(s: State, t: State, node: u64, n: nat)
  {
    && t.m == s.m.(registry := s.m.registry.(entries := t.m.registry.entries, revision := t.m.registry.revision))
    && t.m.registry.revision
       == s.m.registry.revision + (if exists k: nat :: PendingAt(s, node, k) && k < n then 1 else 0)
    && (forall k: nat | k < BINDING_CAPACITY ::
          t.m.registry.entries[k] == if k < n && PendingAt(s, node, k) then s.m.registry.entries[k].(state := Revoked)
                                     else s.m.registry.entries[k])
  }

  lemma OnePending(cfg: Config, s: State, node: u64, i: nat, j: nat)
    requires SystemInv(cfg, s.m, s.d, s.h) && s.m.health == Ready && PendingAt(s, node, i) && PendingAt(s, node, j)
    ensures i == j
  {
    ReadyFacts(cfg, s.m, s.d, s.h);
    hide SystemInv;
    if i != j {
      PendingApart(cfg, s.m.registry.entries, s.m.retired, i, j);
    }
  }

  lemma PendingApart(cfg: Config, es: Entries, retired: seq<Retired>, i: nat, j: nat)
    requires Validated(cfg, es, retired) && i < BINDING_CAPACITY && j < BINDING_CAPACITY && i != j
    requires es[i].state.Prepared? && es[j].state.Prepared?
    ensures es[i].node != es[j].node
  {
    assert Apart(es[i], es[j]);
  }

  /** One more of them is revoked. */
  lemma PendingStep(cfg: Config, s: State, v: State, t: State, x: Credential, i: nat, result: Result)
    requires SystemInv(cfg, s.m, s.d, s.h) && SystemInv(cfg, v.m, v.d, v.h) && Joinable(cfg, s, x)
    requires PendingRevoked(s, v, x.node, i) && PendingAt(s, x.node, i)
    requires Faultless(cfg, v, OpRevoke(x.node, s.m.registry.entries[i].generation), t, result)
    ensures result == Ok && PendingRevoked(s, t, x.node, i + 1)
  {
    hide SystemInv, Faultless;
    forall k: nat | PendingAt(s, x.node, k) ensures k == i {
      OnePending(cfg, s, x.node, i, k);
    }
    assert Registered(v, x.node, s.m.registry.entries[i].generation, i);
    RevokeLaw(cfg, v, x.node, s.m.registry.entries[i].generation, t, result, i);
  }

  lemma PendingSkip(s: State, t: State, node: u64, i: nat)
    requires PendingRevoked(s, t, node, i) && !PendingAt(s, node, i)
    ensures PendingRevoked(s, t, node, i + 1)
  {
  }

  lemma {:induction false} NoneCounted(ring: map<nat, QueueRecord>, lo: nat, hi: nat, slot: nat)
    requires lo <= hi && forall k | lo <= k < hi :: k % QUEUE_CAPACITY in ring && ring[k % QUEUE_CAPACITY].slot != slot
    ensures CountIn(ring, lo, hi, slot) == 0
  {
    if lo < hi {
      NoneCounted(ring, lo, hi - 1, slot);
    }
  }

  /** Nothing is queued for a prepared enrollment. */
  lemma NothingQueuedFor(cfg: Config, s: State, i: nat)
    requires SystemInv(cfg, s.m, s.d, s.h) && s.m.health == Ready
    requires i < BINDING_CAPACITY && s.m.registry.entries[i].state.Prepared?
    ensures s.m.queuedBySlot[i] == 0
  {
    if cfg.role.Receiver? {
      forall k | s.m.head <= k < s.m.tail
        ensures k % QUEUE_CAPACITY in s.d.ring && s.d.ring[k % QUEUE_CAPACITY].slot != i
      {
        assert RingHolds(Reg(s.d), s.d.ring, k, s.h.log[k]);
      }
      assert s.m.queuedBySlot == CountsOf(s.d.ring, s.m.head, s.m.tail);
      hide SystemInv;
      NoneCounted(s.d.ring, s.m.head, s.m.tail, i);
    }
  }

  /** With the node's pending enrollments revoked the credential is prepared. */
  lemma FreshPrepared(cfg: Config, s: State, v: State, x: Credential, t: State, result: Result)
    requires SystemInv(cfg, s.m, s.d, s.h) && SystemInv(cfg, v.m, v.d, v.h) && Joinable(cfg, s, x)
    requires PendingRevoked(s, v, x.node, BINDING_CAPACITY) && Faultless(cfg, v, OpPrepare(x), t, result)
    ensures result == Ok && t.m.registry.revision < UINT64_MAX
  {
    hide SystemInv, Faultless, Names, Unfit;
    PrepareLaw(cfg, v, x, t, result);
    assert !Barred(cfg, v, x);
    assert forall i: nat :: !Registered(v, x.node, x.generation, i);
    var i: nat :| EmptyAt(s, i) || SpentAt(s, i) || PendingAt(s, x.node, i);
    if PendingAt(s, x.node, i) {
      NothingQueuedFor(cfg, s, i);
    }
    assert EmptyAt(v, i) || SpentAt(v, i);
    var slot: nat :| slot < BINDING_CAPACITY && Chosen(v, slot) && Takes(cfg, v, x, slot, t, result);
  }

  /** The first attempt fails only for want of a slot or for a pending enrollment of the node. */
  lemma FirstTry(cfg: Config, s: State, x: Credential, t: State, result: Result)
    requires SystemInv(cfg, s.m, s.d, s.h) && Joinable(cfg, s, x) && Faultless(cfg, s, OpPrepare(x), t, result)
    ensures s.m.health == Ready
    ensures if exists i: nat :: PendingAt(s, x.node, i) then result == Conflict && t == s
      else result == Ok && t.m.registry.revision < UINT64_MAX
  {
    hide SystemInv, Faultless, Names, Unfit;
    if i: nat :| PendingAt(s, x.node, i) {
      PrepareLaw(cfg, s, x, t, result);
      assert Barred(cfg, s, x);
      assert forall i: nat :: !Registered(s, x.node, x.generation, i);
    } else {
      FreshPrepared(cfg, s, s, x, t, result);
    }
  }

  /**
   * `prepareFresh`: a prepared generation left by an interrupted attempt is revoked first, and
   * the credential prepared again.
   */
  method PrepareFresh(store: PersistentStore, x: Credential)
    returns (result: Result, ghost ss: seq<State>, ghost es: seq<Event>)
    requires store.Valid() && Allowed(store.cfg, store.Memory(), store.Durable(), store.history, OpPrepare(x))
    modifies store, store.records
    ensures store.Valid()
    ensures Stretch(store.cfg, ss, es, x.node, x.generation)
    ensures |ss| == |es| + 1 && ss[0] == old(store.Now()) && ss[|es|] == store.Now()
    ensures forall i | 0 <= i < |es| :: !es[i].Remount? && !es[i].op.OpActivate?
    ensures store.history.log == old(store.history.log)
    ensures result == Ok ==> Enrolled(store.Memory(), x)
    ensures store.records.faults >= old(store.records.faults)
    ensures store.records.faults == old(store.records.faults) && Joinable(store.cfg, old(store.Now()), x) ==>
      result == Ok && store.registry.revision < UINT64_MAX
  {
    hide SystemInv, Followed, Faultless, Allowed, StoreBytes.View, Stretch, Enrolled, Joinable;
    ghost var s := store.Now();
    ss, es := [s], [];
    Nothing(store.cfg, s, x.node, x.generation);
    StretchShape(store.cfg, ss, es, x.node, x.generation);
    result := store.Prepare(x);
    PrepareOkEnrolls(store.cfg, s, x, store.Now(), result);
    CallKeepsLog(store.cfg, s, OpPrepare(x), store.Now(), result);
    if store.records.faults == old(store.records.faults) && Joinable(store.cfg, s, x) {
      FirstTry(store.cfg, s, x, store.Now(), result);
    }
    if result != Conflict {
      ghost var e := OneMore(store.cfg, ss, es, OpPrepare(x), store.Now(), result, x.node, x.generation);
      ss, es := ss + [store.Now()], es + [e];
      StretchShape(store.cfg, ss, es, x.node, x.generation);
      return;
    }
    RefusedUnchanged(store.cfg, s, x, store.Now());
    if store.health != Ready {
      return;
    }
    var revoked;
    revoked, ss, es := RevokePending(store, x);
    if revoked {
      ghost var before := store.Now();
      result := store.Prepare(x);
      PrepareOkEnrolls(store.cfg, before, x, store.Now(), result);
      CallKeepsLog(store.cfg, before, OpPrepare(x), store.Now(), result);
      if store.records.faults == old(store.records.faults) && Joinable(store.cfg, s, x) {
        FreshPrepared(store.cfg, s, before, x, store.Now(), result);
      }
      ghost var e := OneMore(store.cfg, ss, es, OpPrepare(x), store.Now(), result, x.node, x.generation);
      ss, es := ss + [store.Now()], es + [e];
      StretchShape(store.cfg, ss, es, x.node, x.generation);
    }
  }

  /** Revokes what the node's interrupted attempts left prepared; whether there was any. */
  method RevokePending(store: PersistentStore, x: Credential)
    returns (revoked: bool, ghost ss: seq<State>, ghost es: seq<Event>)
    requires store.Valid() && store.health == Ready
    requires Allowed(store.cfg, store.Memory(), store.Durable(), store.history, OpPrepare(x))
    modifies store, store.records
    ensures store.Valid() && Allowed(store.cfg, store.Memory(), store.Durable(), store.history, OpPrepare(x))
    ensures Stretch(store.cfg, ss, es, x.node, x.generation)
    ensures |ss| == |es| + 1 && ss[0] == old(store.Now()) && ss[|es|] == store.Now()
    ensures forall i | 0 <= i < |es| :: !es[i].Remount? && !es[i].op.OpActivate?
    ensures store.history.log == old(store.history.log)
    ensures store.records.faults >= old(store.records.faults)
    ensures store.records.faults == old(store.records.faults) && Joinable(store.cfg, old(store.Now()), x) ==>
      && PendingRevoked(old(store.Now()), store.Now(), x.node, BINDING_CAPACITY)
      && (revoked <==> exists k: nat :: PendingAt(old(store.Now()), x.node, k))
  {
    hide SystemInv, Followed, Faultless, Allowed, StoreBytes.View, Stretch, Joinable, PendingRevoked, Unused;
    ghost var s := store.Now();
    ss, es := [s], [];
    Nothing(store.cfg, s, x.node, x.generation);
    StretchShape(store.cfg, ss, es, x.node, x.generation);
    AllPreparedUnused(store.cfg, s);
    NonePending(s, x.node);
    var entries := store.registry.entries;
    revoked := false;
    for i := 0 to BINDING_CAPACITY
      invariant store.Valid() && Allowed(store.cfg, store.Memory(), store.Durable(), store.history, OpPrepare(x))
      invariant Stretch(store.cfg, ss, es, x.node, x.generation) && |ss| == |es| + 1 && ss[0] == s
        && ss[|es|] == store.Now()
      invariant forall k | 0 <= k < |es| :: !es[k].Remount? && !es[k].op.OpActivate?
      invariant store.history.log == s.h.log && store.history.origin == s.h.origin
      invariant store.records.faults >= old(store.records.faults)
      invariant store.records.faults == old(store.records.faults) && Joinable(store.cfg, s, x) ==>
        && PendingRevoked(s, store.Now(), x.node, i)
        && (revoked <==> exists k: nat :: PendingAt(s, x.node, k) && k < i)
    {
      if entries[i].node == x.node && entries[i].state.Prepared? {
        ghost var before := store.Now();
        var one;
        one, ss, es := RevokeOne(store, x, entries[i].generation, s, ss, es);
        revoked := one == Ok || revoked;
        if store.records.faults == old(store.records.faults) && Joinable(store.cfg, s, x) {
          PendingStep(store.cfg, s, before, store.Now(), x, i, one);
        }
      } else if Joinable(store.cfg, s, x) && PendingRevoked(s, store.Now(), x.node, i) {
        PendingSkip(s, store.Now(), x.node, i);
      }
    }
  }

  lemma NonePending(s: State, node: u64)
    ensures PendingRevoked(s, s, node, 0)
  {
  }

  method RevokeOne(store: PersistentStore, x: Credential, generation: u64, ghost s: State, ghost ss0: seq<State>,
                   ghost es0: seq<Event>)
    returns (result: Result, ghost ss: seq<State>, ghost es: seq<Event>)
    requires store.Valid() && Allowed(store.cfg, store.Memory(), store.Durable(), store.history, OpPrepare(x))
    requires Unused(s.h, generation) && store.history.log == s.h.log && store.history.origin == s.h.origin
    requires Stretch(store.cfg, ss0, es0, x.node, x.generation)
    requires |ss0| == |es0| + 1 && ss0[0] == s && ss0[|es0|] == store.Now()
    requires forall i | 0 <= i < |es0| :: !es0[i].Remount? && !es0[i].op.OpActivate?
    modifies store, store.records
    ensures store.Valid() && Allowed(store.cfg, store.Memory(), store.Durable(), store.history, OpPrepare(x))
    ensures store.history.log == s.h.log && store.history.origin == s.h.origin
    ensures Stretch(store.cfg, ss, es, x.node, x.generation)
    ensures |ss| == |es| + 1 && ss[0] == s && ss[|es|] == store.Now()
    ensures forall i | 0 <= i < |es| :: !es[i].Remount? && !es[i].op.OpActivate?
    ensures store.records.faults >= old(store.records.faults)
    ensures store.records.faults == old(store.records.faults) ==>
      Faultless(store.cfg, old(store.Now()), OpRevoke(x.node, generation), store.Now(), result)
  {
    hide SystemInv, Followed, Faultless, Allowed, StoreBytes.View, Stretch;
    ghost var before, op := store.Now(), OpRevoke(x.node, generation);
    result := store.RevokeGeneration(x.node, generation);
    RevokeKeepsAllowed(store.cfg, before, x.node, generation, store.Now(), result, x);
    CallKeepsLog(store.cfg, before, op, store.Now(), result);
    ghost var e := OneMore(store.cfg, ss0, es0, op, store.Now(), result, x.node, x.generation);
    ss, es := ss0 + [store.Now()], es0 + [e];
    StretchShape(store.cfg, ss, es, x.node, x.generation);
  }
}
