// What each operation of the store does, said of the entries, the queue and the accepted samples
// themselves: which result every case gives, and what changed.
module StoreLaws {
  import opened Protocol
  import opened Codec
  import opened Records
  import opened Store
  import opened StoreInvariant
  import opened StoreOps
  import opened StoreRuns
  import opened StoreFits
  import opened StoreObject

  // ------------------------------------------------------------------ what a commit adds to the log

  lemma {:induction false} TrackConcat(h: History, d: Disk, a: seq<Write>, b: seq<Write>)
    ensures TrackAll(h, d, a + b) == TrackAll(TrackAll(h, d, a), ApplyAll(d, a), b)
    decreases a
  {
    if a == [] {
      assert a + b == b;
    } else {
      assert (a + b)[1..] == a[1..] + b;
      TrackConcat(Track(h, d, a[0]), Apply(d, a[0]), a[1..], b);
    }
  }

  lemma PrefixLog(h: History, d: Disk, ws: seq<Write>, k: nat)
    requires k <= |ws|
    ensures h.log <= TrackAll(h, d, ws[..k]).log <= TrackAll(h, d, ws).log
  {
    assert ws == ws[..k] + ws[k..];
    TrackConcat(h, d, ws[..k], ws[k..]);
    TrackGrows(h, d, ws[..k]);
    TrackGrows(TrackAll(h, d, ws[..k]), ApplyAll(d, ws[..k]), ws[k..]);
  }

  /** A commit that writes anything logs exactly its sample, if it gets that far. */
  lemma CommitLogged(cfg: Config, m: Mem, d: Disk, h: History, b: Binding, expected: u64, receipt: Receipt)
    requires SystemInv(cfg, m, d, h) && Allowed(cfg, m, d, h, OpCommit(b, expected, receipt))
    ensures
      var ws := CommitPlan(cfg, m, d, b, expected, receipt).writes;
      && (ws != [] ==> Authorized(m, b).Some?)
      && TrackAll(h, d, ws).log
          == if ws == [] then h.log else h.log + [AcceptedBy(m, Authorized(m, b).value, receipt)]
  {
    hide SystemInv, Allowed, Authorized, AcceptPlan, CommitPlan, AcceptedBy;
    if CommitPlan(cfg, m, d, b, expected, receipt).writes != [] {
      CommitIsAccept(cfg, m, d, b, expected, receipt);
      ReadyFacts(cfg, m, d, h);
      if Queued(m) == QUEUE_CAPACITY {
        LoggedFull(cfg, m, d, h, b, expected, receipt);
      } else {
        LoggedOpen(cfg, m, d, h, b, expected, receipt);
      }
    }
  }

  /** A commit into a full queue evicts the front first, and accepts the same sample. */
  lemma LoggedFull(cfg: Config, m: Mem, d: Disk, h: History, b: Binding, expected: u64, receipt: Receipt)
    requires SystemInv(cfg, m, d, h) && Allowed(cfg, m, d, h, OpCommit(b, expected, receipt))
    requires CommitPlan(cfg, m, d, b, expected, receipt).writes != [] && Queued(m) == QUEUE_CAPACITY
    ensures TrackAll(h, d, CommitPlan(cfg, m, d, b, expected, receipt).writes).log
         == h.log + [AcceptedBy(m, Authorized(m, b).value, receipt)]
  {
    hide SystemInv, Validated, Agrees, Safe, Inv, Acceptable, FrontHealth, AcceptPlan, CommitPlan;
    CommitIsAccept(cfg, m, d, b, expected, receipt);
    var slot := Authorized(m, b).value;
    ReadyFacts(cfg, m, d, h);
    EvictSound(cfg, m, d, h);
    var base := Evicted(m, d.ring[m.head % QUEUE_CAPACITY].slot);
    AcceptSound(cfg, base, d, h, [SaveHead(m.head + 1)], slot, b, receipt);
    assert AcceptedBy(base, slot, receipt) == AcceptedBy(m, slot, receipt);
  }

  lemma LoggedOpen(cfg: Config, m: Mem, d: Disk, h: History, b: Binding, expected: u64, receipt: Receipt)
    requires SystemInv(cfg, m, d, h) && Allowed(cfg, m, d, h, OpCommit(b, expected, receipt))
    requires CommitPlan(cfg, m, d, b, expected, receipt).writes != [] && Queued(m) != QUEUE_CAPACITY
    ensures TrackAll(h, d, CommitPlan(cfg, m, d, b, expected, receipt).writes).log
         == h.log + [AcceptedBy(m, Authorized(m, b).value, receipt)]
  {
    hide Validated, Agrees, Inv, Acceptable, FrontHealth, AcceptPlan, CommitPlan;
    CommitIsAccept(cfg, m, d, b, expected, receipt);
    ReadyFacts(cfg, m, d, h);
    assert Safe(cfg, d, h, []);
    AcceptSound(cfg, m, d, h, [], Authorized(m, b).value, b, receipt);
  }

  lemma ReadyFacts(cfg: Config, m: Mem, d: Disk, h: History)
    requires SystemInv(cfg, m, d, h) && m.health == Ready
    ensures m.registry == Reg(d) && m.retired == Ret(d) && Validated(cfg, m.registry.entries, m.retired)
    ensures cfg.role.Receiver? ==> m.head <= m.tail <= m.head + QUEUE_CAPACITY && m.tail == |h.log|
  {
  }

  /** Whatever a call did, the store is sound after it. */
  lemma FollowedKeeps(cfg: Config, s: State, op: Op, t: State, result: Result)
    requires SystemInv(cfg, s.m, s.d, s.h) && Followed(cfg, s, op, t, result)
    ensures SystemInv(cfg, t.m, t.d, t.h)
  {
    hide SystemInv, Step;
    if Step(cfg, s, Finished(op), t) {
      StepKeeps(cfg, s, Finished(op), t);
    } else {
      var k: nat :| Step(cfg, s, Cut(op, k), t);
      StepKeeps(cfg, s, Cut(op, k), t);
    }
  }

  /** Whatever a commit did, the log has its sample at the end or is as it was. */
  lemma CommitEffect(cfg: Config, s: State, b: Binding, expected: u64, receipt: Receipt, t: State, result: Result)
    requires SystemInv(cfg, s.m, s.d, s.h) && Followed(cfg, s, OpCommit(b, expected, receipt), t, result)
    ensures SystemInv(cfg, t.m, t.d, t.h) && t.h.origin == s.h.origin
    ensures t.h.log == s.h.log
      || (Authorized(s.m, b).Some? && t.h.log == s.h.log + [AcceptedBy(s.m, Authorized(s.m, b).value, receipt)])
    ensures result == Ok ==> t.h.log != s.h.log
  {
    hide SystemInv, CommitPlan, PlanOf, Allowed, LoadDisk, AcceptedBy, Authorized;
    var op := OpCommit(b, expected, receipt);
    FollowedKeeps(cfg, s, op, t, result);
    CommitPlanned(cfg, s, b, expected, receipt);
    var p := CommitPlan(cfg, s.m, s.d, b, expected, receipt);
    OkWrites(cfg, s.m, s.d, b, expected, receipt);
    assert Allowed(cfg, s.m, s.d, s.h, op);
    CommitLogged(cfg, s.m, s.d, s.h, b, expected, receipt);
    if !Step(cfg, s, Finished(op), t) || result != p.result {
      var k: nat :| Step(cfg, s, Cut(op, k), t);
      PrefixLog(s.h, s.d, p.writes, k);
    }
  }

  lemma OkWrites(cfg: Config, m: Mem, d: Disk, b: Binding, expected: u64, receipt: Receipt)
    ensures CommitPlan(cfg, m, d, b, expected, receipt).result == Ok ==>
      CommitPlan(cfg, m, d, b, expected, receipt).writes != []
  {
    hide Acceptable, FrontHealth;
  }

  // ------------------------------------------------------------------ results

  /** Either no write failed, or the call reports it and the store is out of service until it is mounted. */
  lemma FaultlessOrLatched(cfg: Config, s: State, op: Op, t: State, result: Result)
    requires Followed(cfg, s, op, t, result)
    ensures Faultless(cfg, s, op, t, result) || (result == StorageError && t.m.health != Ready)
  {
    hide PlanOf, Allowed;
  }

  lemma FaultlessIs(cfg: Config, s: State, op: Op, t: State, result: Result)
    requires Faultless(cfg, s, op, t, result)
    ensures Allowed(cfg, s.m, s.d, s.h, op) && Step(cfg, s, Finished(op), t)
    ensures
      var p := PlanOf(cfg, s.m, s.d, op);
      t == State(p.after, ApplyAll(s.d, p.writes), TrackAll(s.h, s.d, p.writes)) && result == p.result
  {
    hide PlanOf, Allowed;
  }

  lemma FaultlessKeeps(cfg: Config, s: State, op: Op, t: State, result: Result)
    requires SystemInv(cfg, s.m, s.d, s.h) && Faultless(cfg, s, op, t, result)
    ensures SystemInv(cfg, t.m, t.d, t.h)
  {
    hide SystemInv, Step;
    StepKeeps(cfg, s, Finished(op), t);
  }

  /** A store that is not mounted refuses everything. */
  lemma UnmountedRefuses(cfg: Config, s: State, op: Op, t: State, result: Result)
    requires Faultless(cfg, s, op, t, result) && s.m.health != Ready
    ensures result == StorageError && t == s
  {
    hide Allowed;
  }

  /** Only entries changed, under the next revision. */
  ghost predicate OnlyEntries(s: State, t: State)
  {
    && s.m.registry.revision != UINT64_MAX
    && t.m == s.m.(registry := s.m.registry.(entries := t.m.registry.entries, revision := s.m.registry.revision + 1))
    && t.d == s.d.(registry := Some(t.m.registry)) && t.h.log == s.h.log && t.h.origin == s.h.origin
  }

  /** The revision cannot grow: a write failure without a write. */
  ghost predicate Exhausted(s: State, t: State, result: Result)
  {
    result == StorageError && t == s.(m := s.m.(health := WriteError))
  }

  ghost predicate Registered(s: State, node: u64, generation: u64, i: nat)
  {
    i < BINDING_CAPACITY && !s.m.registry.entries[i].state.Empty?
    && s.m.registry.entries[i].node == node && s.m.registry.entries[i].generation == generation
  }

  lemma SlotFound(cfg: Config, s: State, node: u64, generation: u64, i: nat)
    requires SystemInv(cfg, s.m, s.d, s.h) && s.m.health == Ready && Registered(s, node, generation, i)
    ensures Find(s.m.registry.entries, node, generation, BINDING_CAPACITY) == Some(i)
  {
    hide SystemInv;
    var found := Find(s.m.registry.entries, node, generation, BINDING_CAPACITY);
    ReadyFacts(cfg, s.m, s.d, s.h);
    FoundUnique(cfg, s.m.registry.entries, s.m.retired, i, found.value);
  }

  /** What is not enrolled can be neither activated nor revoked. */
  lemma AbsentLaw(cfg: Config, s: State, op: Op, t: State, result: Result)
    requires s.m.health == Ready && Faultless(cfg, s, op, t, result)
    requires op.OpActivate? || op.OpRevoke? || (op.OpAlongside? && cfg.role.Receiver?)
    requires forall i: nat :: !Registered(s, op.node, op.generation, i)
    ensures result == NotFound && t == s
  {
    hide Allowed;
    var found := Find(s.m.registry.entries, op.node, op.generation, BINDING_CAPACITY);
    assert found.Some? ==> Registered(s, op.node, op.generation, found.value);
  }

  lemma OneRegistryWrite(d: Disk, h: History, r: Registry)
    ensures ApplyAll(d, [] + [SaveRegistry(r)]) == d.(registry := Some(r))
    ensures TrackAll(h, d, [] + [SaveRegistry(r)]).log == h.log
  {
    assert [] + [SaveRegistry(r)] == [SaveRegistry(r)] && [SaveRegistry(r)][1..] == [];
  }

  /** Activating takes a prepared enrollment into service, and the node's others out of it. */
  lemma ActivateLaw(cfg: Config, s: State, node: u64, generation: u64, t: State, result: Result, i: nat)
    requires SystemInv(cfg, s.m, s.d, s.h) && s.m.health == Ready && Registered(s, node, generation, i)
    requires Faultless(cfg, s, OpActivate(node, generation), t, result)
    ensures
      var was := s.m.registry.entries;
      match was[i].state
      case Active => result == Ok && t == s
      case Prepared =>
        if s.m.registry.revision == UINT64_MAX then Exhausted(s, t, result)
        else
          && result == Ok && OnlyEntries(s, t)
          && forall k | 0 <= k < BINDING_CAPACITY ::
               t.m.registry.entries[k] ==
                 if k == i then was[k].(state := Active)
                 else if was[k].node == node && was[k].state.Active? then was[k].(state := Revoked)
                 else was[k]
      case _ => result == Conflict && t == s
  {
    hide SystemInv, Allowed, Find;
    SlotFound(cfg, s, node, generation, i);
    ActivatePlanned(cfg, s, node, generation);
    if s.m.registry.entries[i].state.Prepared? && s.m.registry.revision != UINT64_MAX {
      OneRegistryWrite(s.d, s.h, t.m.registry);
    }
  }

  /** The node's generation with the latest sample among the active ones, by its receipt. */
  ghost predicate LastUsed(s: State, node: u64, k: nat)
  {
    UsedSlot(s, node, k) && forall j: nat | UsedSlot(s, node, j) ::
      || s.m.receipts[j].through < s.m.receipts[k].through
      || (s.m.receipts[j].through == s.m.receipts[k].through && k <= j)
  }

  ghost predicate UsedSlot(s: State, node: u64, k: nat)
  {
    k < BINDING_CAPACITY && s.m.registry.entries[k].node == node && s.m.registry.entries[k].state.Active?
    && s.m.receipts[k].counter != 0
  }

  lemma {:induction false} KeepIsLastUsed(s: State, node: u64, n: nat)
    requires n <= BINDING_CAPACITY
    ensures
      var k := Keep(s.m, node, n);
      if k < 0 then forall j: nat | UsedSlot(s, node, j) :: j >= n
      else
        && k < n && UsedSlot(s, node, k)
        && forall j: nat | UsedSlot(s, node, j) && j < n ::
             s.m.receipts[j].through < s.m.receipts[k].through
             || (s.m.receipts[j].through == s.m.receipts[k].through && k <= j)
  {
    if n != 0 {
      KeepIsLastUsed(s, node, n - 1);
    }
  }

  /** Beside the new generation only the one the node used last stays in service. */
  lemma AlongsideLaw(cfg: Config, s: State, node: u64, generation: u64, t: State, result: Result, i: nat)
    requires SystemInv(cfg, s.m, s.d, s.h) && s.m.health == Ready && Registered(s, node, generation, i)
    requires cfg.role.Receiver? && Faultless(cfg, s, OpAlongside(node, generation), t, result)
    ensures
      var was := s.m.registry.entries;
      match was[i].state
      case Active => result == Ok && t == s
      case Prepared =>
        if s.m.registry.revision == UINT64_MAX then Exhausted(s, t, result)
        else
          && result == Ok && OnlyEntries(s, t)
          && forall k | 0 <= k < BINDING_CAPACITY ::
               t.m.registry.entries[k] ==
                 if k == i then was[k].(state := Active)
                 else if was[k].node == node && was[k].state.Active? && !LastUsed(s, node, k)
                 then was[k].(state := Revoked)
                 else was[k]
      case _ => result == Conflict && t == s
  {
    hide SystemInv, Allowed, Find;
    SlotFound(cfg, s, node, generation, i);
    ActivatePlanned(cfg, s, node, generation);
    if s.m.registry.entries[i].state.Prepared? && s.m.registry.revision != UINT64_MAX {
      KeepIsLastUsed(s, node, BINDING_CAPACITY);
      OneRegistryWrite(s.d, s.h, t.m.registry);
    }
  }

  lemma AlongsideOnTransmitter(cfg: Config, s: State, node: u64, generation: u64, t: State, result: Result)
    requires s.m.health == Ready && cfg.role.Transmitter? && Faultless(cfg, s, OpAlongside(node, generation), t, result)
    ensures result == Result.Invalid && t == s
  {
    hide Allowed;
  }

  /** Revoking takes exactly the named enrollment out of service. */
  lemma RevokeLaw(cfg: Config, s: State, node: u64, generation: u64, t: State, result: Result, i: nat)
    requires SystemInv(cfg, s.m, s.d, s.h) && s.m.health == Ready && Registered(s, node, generation, i)
    requires Faultless(cfg, s, OpRevoke(node, generation), t, result)
    ensures
      var was := s.m.registry.entries;
      if was[i].state.Revoked? then result == Ok && t == s
      else if s.m.registry.revision == UINT64_MAX then Exhausted(s, t, result)
      else
        && result == Ok && OnlyEntries(s, t)
        && forall k | 0 <= k < BINDING_CAPACITY ::
             t.m.registry.entries[k] == if k == i then was[k].(state := Revoked) else was[k]
  {
    hide SystemInv, Allowed, Find;
    SlotFound(cfg, s, node, generation, i);
    ActivatePlanned(cfg, s, node, generation);
    if !s.m.registry.entries[i].state.Revoked? && s.m.registry.revision != UINT64_MAX {
      OneRegistryWrite(s.d, s.h, t.m.registry);
    }
  }

  // ------------------------------------------------------------------ bindings

  /** The binding is one of an active enrollment. */
  ghost predicate Binds(s: State, b: Binding, i: nat)
  {
    && i < BINDING_CAPACITY && b.active && b.network == s.m.registry.network
    && s.m.registry.entries[i].state.Active? && s.m.registry.entries[i].node == b.node
    && s.m.registry.entries[i].key == b.key
  }

  lemma KeyUnique(cfg: Config, es: Entries, retired: seq<Retired>, i: nat, j: nat)
    requires Validated(cfg, es, retired) && i < BINDING_CAPACITY && j < BINDING_CAPACITY
    requires !es[i].state.Empty? && !es[j].state.Empty? && es[i].key == es[j].key
    ensures i == j
  {
  }

  lemma BindingFound(cfg: Config, s: State, b: Binding)
    requires SystemInv(cfg, s.m, s.d, s.h) && s.m.health == Ready
    ensures forall i: nat | Binds(s, b, i) :: Authorized(s.m, b) == Some(i)
    ensures (forall i: nat :: !Binds(s, b, i)) ==> Authorized(s.m, b) == None
  {
    ReadyFacts(cfg, s.m, s.d, s.h);
    hide SystemInv;
    var found := Authorized(s.m, b);
    assert found.Some? ==> Binds(s, b, found.value);
    forall i: nat | Binds(s, b, i) ensures found == Some(i) {
      assert Matches(s.m.registry.entries[i], b);
      KeyUnique(cfg, s.m.registry.entries, s.m.retired, i, found.value);
    }
  }

  /** The binding's enrollment on a transmitter, with a counter left. */
  ghost predicate Countable(cfg: Config, s: State, b: Binding, i: nat)
  {
    Binds(s, b, i) && cfg.role.Transmitter? && s.m.registry.entries[i].counter != UINT64_MAX
  }

  /** A reservation takes one counter of exactly the binding's enrollment, on a transmitter. */
  lemma ReserveLaw(cfg: Config, s: State, b: Binding, t: State, result: Result)
    requires SystemInv(cfg, s.m, s.d, s.h) && s.m.health == Ready && Faultless(cfg, s, OpReserve(b), t, result)
    ensures forall i: nat | Countable(cfg, s, b, i) ::
      if s.m.registry.revision == UINT64_MAX then Exhausted(s, t, result)
      else
        && result == Ok && OnlyEntries(s, t)
        && t.m.registry.entries
           == s.m.registry.entries[i := s.m.registry.entries[i].(counter := s.m.registry.entries[i].counter + 1)]
    ensures (forall i: nat :: !Countable(cfg, s, b, i)) ==> result == StorageError && t == s
  {
    BindingFound(cfg, s, b);
    hide SystemInv, Allowed, Authorized;
    ReservePlanned(cfg, s, b);
    var found := Authorized(s.m, b);
    assert found.Some? ==> Binds(s, b, found.value);
    if found.Some? && Countable(cfg, s, b, found.value) && s.m.registry.revision != UINT64_MAX {
      OneRegistryWrite(s.d, s.h, t.m.registry);
    }
  }

  // ------------------------------------------------------------------ commit

  /** The accepted sample is at the end of the queue and of the log; a full queue gave up its oldest. */
  ghost predicate Appends(s: State, i: nat, receipt: Receipt, t: State)
    requires i < BINDING_CAPACITY
  {
    var e := s.m.registry.entries[i];
    var link := if receipt.link.known then receipt.link else UNKNOWN_LINK;
    var given := if s.m.tail - s.m.head == QUEUE_CAPACITY then 1 else 0;
    && t.h.log == s.h.log + [Accepted(e.node, e.generation, e.key, s.m.registry.network, receipt.counter,
                                      receipt.last, link, receipt.ackPower)]
    && t.m.head == s.m.head + given && t.m.dropped == s.m.dropped + given && t.m.tail == s.m.tail + 1
    && t.m.receipts == s.m.receipts[i := ReceiptRecord(e.generation, s.m.tail + 1, receipt.counter, receipt.last,
                                                       receipt.ackPower)]
    && t.m.retired == s.m.retired
  }

  /** The node's other active enrollments are revoked, which can only fail for want of a revision. */
  ghost predicate Supersedes(s: State, node: u64, i: nat, t: State, result: Result)
  {
    var was := s.m.registry.entries;
    if forall k | 0 <= k < BINDING_CAPACITY && k != i :: !(was[k].node == node && was[k].state.Active?)
    then result == Ok && t.m.health == Ready && t.m.registry == s.m.registry
    else if s.m.registry.revision == UINT64_MAX
    then result == StorageError && t.m.health == WriteError && t.m.registry == s.m.registry
    else
      && result == Ok && t.m.health == Ready
      && t.m.registry == s.m.registry.(entries := t.m.registry.entries, revision := s.m.registry.revision + 1)
      && forall k | 0 <= k < BINDING_CAPACITY ::
           t.m.registry.entries[k]
             == if k != i && was[k].node == node && was[k].state.Active? then was[k].(state := Revoked) else was[k]
  }

  lemma AcceptMemory(s: State, base: Mem, ws: seq<Write>, i: nat, b: Binding, receipt: Receipt, t: State,
                     result: Result)
    requires i < BINDING_CAPACITY && base.registry == s.m.registry && base.health == s.m.health == Ready
    requires
      var p := AcceptPlan(base, ws, i, b, receipt);
      t.m == p.after && result == p.result
    ensures t.m.head == base.head && t.m.dropped == base.dropped && t.m.tail == base.tail + 1
    ensures t.m.retired == base.retired
    ensures t.m.receipts == base.receipts[i := ReceiptRecord(s.m.registry.entries[i].generation, base.tail + 1,
                                                             receipt.counter, receipt.last, receipt.ackPower)]
    ensures Supersedes(s, b.node, i, t, result)
  {
    var es := s.m.registry.entries;
    var next := Superseding(es, b.node, i);
    if next == es {
      forall k | 0 <= k < BINDING_CAPACITY && k != i ensures !(es[k].node == b.node && es[k].state.Active?) {
        assert next[k] == es[k];
      }
    } else {
      assert exists k :: 0 <= k < BINDING_CAPACITY && next[k] != es[k];
    }
  }

  /** Which result a commit gives, and that a frame that passes its checks is accepted. */
  lemma CommitLaw(cfg: Config, s: State, b: Binding, expected: u64, receipt: Receipt, t: State, result: Result)
    requires SystemInv(cfg, s.m, s.d, s.h) && s.m.health == Ready
    requires Faultless(cfg, s, OpCommit(b, expected, receipt), t, result)
    ensures cfg.role.Transmitter? || (forall i: nat :: !Binds(s, b, i)) ==> result == Unauthorized && t == s
    ensures forall i: nat | cfg.role.Receiver? && Binds(s, b, i) ::
      var m := Open(cfg.c, b, receipt.last);
      if s.m.receipts[i].counter != expected then result == Conflict && t == s
      else if m.Failed? || !m.value.kind.DataKind? || m.value.counter != receipt.counter || m.value.counter <= expected
      then result == Result.Invalid && t == s
      else Appends(s, i, receipt, t) && Supersedes(s, b.node, i, t, result)
  {
    BindingFound(cfg, s, b);
    CommitPlanned(cfg, s, b, expected, receipt);
    hide SystemInv, Allowed, Authorized, AcceptPlan, FrontHealth, Open, Supersedes;
    var found := Authorized(s.m, b);
    assert found.Some? ==> Binds(s, b, found.value);
    if found.Some? && cfg.role.Receiver? && s.m.receipts[found.value].counter == expected
       && Acceptable(cfg.c, b, expected, receipt) {
      AcceptedNow(cfg, s, b, expected, receipt, t, result, found.value);
    }
  }

  lemma AcceptedNow(cfg: Config, s: State, b: Binding, expected: u64, receipt: Receipt, t: State, result: Result,
                    i: nat)
    requires SystemInv(cfg, s.m, s.d, s.h) && s.m.health == Ready && cfg.role.Receiver?
    requires Faultless(cfg, s, OpCommit(b, expected, receipt), t, result)
    requires Authorized(s.m, b) == Some(i) && s.m.receipts[i].counter == expected
    requires Acceptable(cfg.c, b, expected, receipt)
    ensures Appends(s, i, receipt, t) && Supersedes(s, b.node, i, t, result)
  {
    hide SystemInv, Allowed, Authorized, FrontHealth, Acceptable, AcceptPlan, CommitPlan, PlanOf, Supersedes, Step,
      Faultless, ApplyAll, TrackAll, FindActive;
    FaultlessIs(cfg, s, OpCommit(b, expected, receipt), t, result);
    CommitPlanned(cfg, s, b, expected, receipt);
    CommitLogged(cfg, s.m, s.d, s.h, b, expected, receipt);
    ReadyFacts(cfg, s.m, s.d, s.h);
    CommitWrites(cfg, s, b, expected, receipt);
    CommitIsAccept(cfg, s.m, s.d, b, expected, receipt);
    if Queued(s.m) == QUEUE_CAPACITY {
      var base := Evicted(s.m, s.d.ring[s.m.head % QUEUE_CAPACITY].slot);
      AcceptMemory(s, base, [SaveHead(s.m.head + 1)], i, b, receipt, t, result);
    } else {
      AcceptMemory(s, s.m, [], i, b, receipt, t, result);
    }
  }

  lemma CommitWrites(cfg: Config, s: State, b: Binding, expected: u64, receipt: Receipt)
    requires SystemInv(cfg, s.m, s.d, s.h) && s.m.health == Ready && cfg.role.Receiver?
    requires Authorized(s.m, b).Some? && s.m.receipts[Authorized(s.m, b).value].counter == expected
    requires Acceptable(cfg.c, b, expected, receipt)
    ensures CommitPlan(cfg, s.m, s.d, b, expected, receipt).writes != []
  {
    hide SystemInv, Authorized, FrontHealth, Acceptable, AcceptPlan, Peek, Open, Holds;
    var i := Authorized(s.m, b).value;
    ReadyFacts(cfg, s.m, s.d, s.h);
    if Queued(s.m) == QUEUE_CAPACITY {
      FrontIs(cfg, s.m, s.d, s.h);
      FrontSlot(s.m, s.d);
      AcceptNotEmpty(Evicted(s.m, s.d.ring[s.m.head % QUEUE_CAPACITY].slot), [SaveHead(s.m.head + 1)], i, b, receipt);
    } else {
      AcceptNotEmpty(s.m, [], i, b, receipt);
    }
  }

  lemma AcceptNotEmpty(m: Mem, ws: seq<Write>, slot: nat, b: Binding, receipt: Receipt)
    requires slot < BINDING_CAPACITY
    ensures AcceptPlan(m, ws, slot, b, receipt).writes != []
  {
    hide Superseding;
  }

  // ------------------------------------------------------------------ the front of the queue

  lemma OneHeadWrite(d: Disk, h: History, n: nat)
    ensures ApplyAll(d, [SaveHead(n)]) == d.(head := Some(n)) && TrackAll(h, d, [SaveHead(n)]) == h
  {
    assert [SaveHead(n)][1..] == [];
  }

  /** The front is removed exactly when the call names it; any other call is refused. */
  lemma ForwardedLaw(cfg: Config, s: State, node: u64, generation: u64, counter: u64, t: State, result: Result)
    requires SystemInv(cfg, s.m, s.d, s.h) && s.m.health == Ready
    requires Faultless(cfg, s, OpForwarded(node, generation, counter), t, result)
    ensures
      if cfg.role.Receiver? && s.m.head < |s.h.log| && s.h.log[s.m.head].node == node
         && s.h.log[s.m.head].generation == generation && s.h.log[s.m.head].counter == counter
      then
        && result == Ok && t.h == s.h && t.d == s.d.(head := Some(s.m.head + 1))
        && t.m == s.m.(head := s.m.head + 1, queuedBySlot := t.m.queuedBySlot)
      else result == Conflict && t == s
  {
    hide SystemInv, Allowed, FrontHealth, Open, Find, Peek, PeekHealth, PlanOf;
    ReadyFacts(cfg, s.m, s.d, s.h);
    PeekLaw(cfg, s);
    ForwardedPlanned(cfg, s, node, generation, counter);
    OneHeadWrite(s.d, s.h, s.m.head + 1);
  }

  lemma NoQueueOnTransmitter(cfg: Config, s: State)
    requires SystemInv(cfg, s.m, s.d, s.h) && s.m.health == Ready
    ensures cfg.role.Transmitter? ==> s.m.head == s.m.tail
  {
    hide Inv;
  }

  /** What is peeked is the oldest accepted sample still queued, with its data and the link it arrived over. */
  lemma PeekLaw(cfg: Config, s: State)
    requires SystemInv(cfg, s.m, s.d, s.h) && s.m.health == Ready
    ensures
      if cfg.role.Receiver? && s.m.head < |s.h.log| then
        var a := s.h.log[s.m.head];
        var m := Open(cfg.c, Binding(a.network, a.node, a.key, true), a.frame);
        && m.Done? && Peek(cfg, s.m, s.d) == Some(QueuedSample(a.node, a.generation, a.counter, m.value.data, a.link))
      else Peek(cfg, s.m, s.d) == None
    ensures PeekHealth(cfg, s.m, s.d) == Ready
  {
    hide SystemInv, FrontHealth, Open;
    ReadyFacts(cfg, s.m, s.d, s.h);
    NoQueueOnTransmitter(cfg, s);
    if cfg.role.Receiver? && s.m.head < s.m.tail {
      FrontIs(cfg, s.m, s.d, s.h);
    }
  }

  // ------------------------------------------------------------------ the retired list

  /** The newest credentials a full list keeps. */
  function NewestOf(l: seq<Retired>): (r: RetiredList)
  {
    if |l| <= RETIRED_CAPACITY then l else l[|l| - RETIRED_CAPACITY..]
  }

  lemma RetireIsNewest(l: seq<Retired>, generation: u64, mark: u64)
    ensures Retire(NewestOf(l), generation, mark) == NewestOf(l + [Retired(generation, mark)])
  {
  }

  /** The credential of a slot, as the retired list names it. */
  function MarkAt(c: Crypto, es: Entries, i: nat): Retired
    requires i < BINDING_CAPACITY
  {
    Retired(es[i].generation, c.fingerprint(es[i].key))
  }

  predicate Names(l: seq<Retired>, x: Retired)
  {
    exists i :: 0 <= i < |l| && (l[i].generation == x.generation || l[i].fingerprint == x.fingerprint)
  }

  /** What retiring the enrollments of the first `n` slots adds. */
  lemma {:induction false} RetireAllAdds(c: Crypto, l: RetiredList, es: Entries, n: nat) returns (added: seq<Retired>)
    requires n <= BINDING_CAPACITY
    ensures RetireAll(c, l, es, n) == NewestOf(l + added) && |added| <= n
    ensures forall x | x in added :: exists i: nat :: i < n && !es[i].state.Empty? && x == MarkAt(c, es, i)
    ensures forall i | 0 <= i < n && !es[i].state.Empty? :: Names(l + added, MarkAt(c, es, i))
  {
    hide Names, NewestOf, Retire, IsRetired;
    if n == 0 {
      assert l + [] == l;
      NewestSelf(l);
      return [];
    }
    var before := RetireAllAdds(c, l, es, n - 1);
    if es[n - 1].state.Empty? {
      return before;
    }
    added := OneMoreRetired(l + before, MarkAt(c, es, n - 1));
    assert l + before + added == l + (before + added);
    forall i | 0 <= i < n - 1 && !es[i].state.Empty? ensures Names(l + (before + added), MarkAt(c, es, i)) {
      NamesStay(l + before, added, MarkAt(c, es, i));
    }
    added := before + added;
  }

  lemma NewestSelf(l: RetiredList)
    ensures NewestOf(l) == l
  {
  }

  /** Retiring one credential unless the list has it. */
  lemma OneMoreRetired(l: seq<Retired>, x: Retired) returns (added: seq<Retired>)
    ensures added == [] || added == [x]
    ensures Names(l + added, x)
    ensures NewestOf(l + added)
         == if IsRetired(NewestOf(l), x.generation, x.fingerprint) then NewestOf(l)
            else Retire(NewestOf(l), x.generation, x.fingerprint)
  {
    var list := NewestOf(l);
    if IsRetired(list, x.generation, x.fingerprint) {
      assert l + [] == l;
      NewestAmong(l, x);
      return [];
    }
    RetireIsNewest(l, x.generation, x.fingerprint);
    assert (l + [x])[|l|] == x;
    return [x];
  }

  /** A full list forgets its oldest credentials only. */
  lemma NewestAmong(l: seq<Retired>, x: Retired)
    ensures Names(NewestOf(l), x) ==> Names(l, x)
  {
    if Names(NewestOf(l), x) {
      var list := NewestOf(l);
      var k :| 0 <= k < |list| && (list[k].generation == x.generation || list[k].fingerprint == x.fingerprint);
      assert l[|l| - |list| + k] == list[k];
    }
  }

  /** What is named in a longer list is named in its newest part, or was among those forgotten. */
  lemma NewestOrForgotten(l: seq<Retired>, added: seq<Retired>, x: Retired)
    requires Names(l + added, x) && |added| <= RETIRED_CAPACITY
    ensures Names(NewestOf(l + added), x) || (Names(l, x) && |NewestOf(l + added)| == RETIRED_CAPACITY)
  {
    var all, r := l + added, NewestOf(l + added);
    var k :| 0 <= k < |all| && (all[k].generation == x.generation || all[k].fingerprint == x.fingerprint);
    var cut := |all| - |r|;
    if k >= cut {
      assert r[k - cut] == all[k];
    } else {
      assert all[k] == l[k];
    }
  }

  lemma NamesStay(l: seq<Retired>, more: seq<Retired>, x: Retired)
    requires Names(l, x)
    ensures Names(l + more, x)
  {
    var k :| 0 <= k < |l| && (l[k].generation == x.generation || l[k].fingerprint == x.fingerprint);
    assert (l + more)[k] == l[k];
  }

  /** The enrollments of the entries are retired, as far as the list reaches; only the oldest are forgotten. */
  ghost predicate AllRetired(c: Crypto, l: RetiredList, es: Entries, r: RetiredList)
  {
    && (exists added: seq<Retired> :: |added| <= BINDING_CAPACITY && r == NewestOf(l + added)
          && forall x | x in added ::
               exists i: nat :: i < BINDING_CAPACITY && !es[i].state.Empty? && x == MarkAt(c, es, i))
    && (forall i | 0 <= i < BINDING_CAPACITY && !es[i].state.Empty? ::
          Names(r, MarkAt(c, es, i)) || (Names(l, MarkAt(c, es, i)) && |r| == RETIRED_CAPACITY))
  }

  lemma RetireAllLaw(c: Crypto, l: RetiredList, es: Entries)
    ensures AllRetired(c, l, es, RetireAll(c, l, es, BINDING_CAPACITY))
  {
    var added := RetireAllAdds(c, l, es, BINDING_CAPACITY);
    var r := NewestOf(l + added);
    hide Names, NewestOf, MarkAt;
    forall i | 0 <= i < BINDING_CAPACITY && !es[i].state.Empty?
      ensures Names(r, MarkAt(c, es, i)) || (Names(l, MarkAt(c, es, i)) && |r| == RETIRED_CAPACITY)
    {
      NewestOrForgotten(l, added, MarkAt(c, es, i));
    }
  }

  // ------------------------------------------------------------------ reset

  /**
   * A reset refuses to drop undelivered samples without permission, and then changes nothing. Otherwise,
   * unless the revision is exhausted, it reports Ok: no enrollment is left, every one that was is
   * retired, and the queue is empty with its sequences going on.
   */
  lemma ResetLaw(cfg: Config, s: State, discardQueue: bool, t: State, result: Result)
    requires SystemInv(cfg, s.m, s.d, s.h) && s.m.health == Ready
    requires Faultless(cfg, s, OpReset(discardQueue), t, result)
    ensures s.m.head != s.m.tail && !discardQueue ==> result == Conflict && t == s
    ensures (s.m.head == s.m.tail || discardQueue) && s.m.registry.revision < UINT64_MAX - 1 ==>
      && result == Ok && t.m.health == Ready
      && (forall i | 0 <= i < BINDING_CAPACITY :: t.m.registry.entries[i] == NO_ENTRY)
      && t.m.registry.network == 0 && t.m.registry.receiver == 0
      && t.m.head == t.m.tail == s.m.tail
      && AllRetired(cfg.c, s.m.retired, s.m.registry.entries, t.m.retired)
      && t.h.log == s.h.log && t.m.dropped == s.m.dropped
      && Reg(t.d) == t.m.registry && Ret(t.d) == t.m.retired
    ensures (s.m.head == s.m.tail || discardQueue) && s.m.registry.revision >= UINT64_MAX - 1 ==>
      result == StorageError && t.m.health == WriteError
  {
    hide SystemInv, Allowed, AllRetired, RetireAll, Inv, Step, Faultless, PlanOf, ApplyAll, TrackAll, ResetPlan;
    FaultlessIs(cfg, s, OpReset(discardQueue), t, result);
    ResetPlanned(cfg, s, discardQueue);
    StepKeeps(cfg, s, Finished(OpReset(discardQueue)), t);
    OperationSound(cfg, s.m, s.d, s.h, OpReset(discardQueue));
    ResetMemory(cfg, s.m, discardQueue);
    if t.m.health == Ready {
      ReadyFacts(cfg, t.m, t.d, t.h);
    }
    assert ApplyAll(s.d, []) == s.d && TrackAll(s.h, s.d, []) == s.h by {
      NothingApplied(s.d, s.h);
    }
  }

  lemma NothingApplied(d: Disk, h: History)
    ensures ApplyAll(d, []) == d && TrackAll(h, d, []) == h
  {
  }

  /** What a reset leaves in memory. */
  lemma ResetMemory(cfg: Config, m: Mem, discardQueue: bool)
    requires m.health == Ready
    ensures
      var p := ResetPlan(cfg, m, discardQueue);
      if m.tail != m.head && !discardQueue then p == Plan([], Conflict, m)
      else if m.registry.revision >= UINT64_MAX - 1 then p.result == StorageError && p.after.health == WriteError
      else
        && p.result == Ok && p.after.health == Ready && p.after.head == p.after.tail == m.tail
        && p.after.dropped == m.dropped && AllRetired(cfg.c, m.retired, m.registry.entries, p.after.retired)
        && p.after.registry == NO_REGISTRY.(revision := m.registry.revision + 2)
  {
    hide AllRetired, RetireAll;
    RetireAllLaw(cfg.c, m.retired, m.registry.entries);
  }

  // ------------------------------------------------------------------ prepare

  predicate EmptyAt(s: State, i: nat) { i < BINDING_CAPACITY && s.m.registry.entries[i].state.Empty? }

  /** A revoked enrollment none of whose samples is queued any more. */
  predicate SpentAt(s: State, i: nat)
  {
    i < BINDING_CAPACITY && s.m.registry.entries[i].state.Revoked? && s.m.queuedBySlot[i] == 0
  }

  /** The first empty slot or, without one, the first whose enrollment is spent. */
  ghost predicate Chosen(s: State, i: nat)
  {
    if exists j: nat :: EmptyAt(s, j) then EmptyAt(s, i) && forall j: nat | EmptyAt(s, j) :: i <= j
    else SpentAt(s, i) && forall j: nat | SpentAt(s, j) :: i <= j
  }

  lemma {:induction false} FirstIsEmpty(s: State, n: nat)
    requires n <= BINDING_CAPACITY
    ensures
      var r := FirstEmpty(s.m.registry.entries, n);
      if r.Some? then EmptyAt(s, r.value) && forall j: nat | EmptyAt(s, j) :: r.value <= j
      else forall j: nat | EmptyAt(s, j) :: j >= n
  {
    if n != 0 {
      FirstIsEmpty(s, n - 1);
    }
  }

  lemma {:induction false} FirstIsSpent(s: State, n: nat)
    requires n <= BINDING_CAPACITY
    ensures
      var r := Reclaimable(s.m, n);
      if r.Some? then SpentAt(s, r.value) && forall j: nat | SpentAt(s, j) :: r.value <= j
      else forall j: nat | SpentAt(s, j) :: j >= n
  {
    if n != 0 {
      FirstIsSpent(s, n - 1);
    }
  }

  /** The credential takes the slot, unused; an enrollment that had it is retired first. */
  ghost predicate Takes(cfg: Config, s: State, x: Credential, i: nat, t: State, result: Result)
    requires i < BINDING_CAPACITY
  {
    var was := s.m.registry.entries;
    && (if was[i].state.Empty? || Names(s.m.retired, MarkAt(cfg.c, was, i)) then t.m.retired == s.m.retired
        else t.m.retired == NewestOf(s.m.retired + [MarkAt(cfg.c, was, i)]))
    && t.h.log == s.h.log && t.m.head == s.m.head && t.m.tail == s.m.tail && t.m.dropped == s.m.dropped
    && (if s.m.registry.revision == UINT64_MAX
        then result == StorageError && t.m.health == WriteError && t.m.registry == s.m.registry
        else
          && result == Ok && t.m.health == Ready
          && t.m.registry == Registry(s.m.registry.revision + 1, x.network, x.receiver, x.profile,
                                      was[i := Entry(Prepared, x.node, x.generation, 0, x.key)])
          && t.m.receipts == s.m.receipts[i := NO_RECEIPT_RECORD])
  }

  /** Some field of the credential is not one this device can enroll. */
  predicate Unfit(cfg: Config, x: Credential)
  {
    || x.network == 0 || x.receiver == 0 || x.node == 0 || x.generation == 0 || x.receiver == x.node || x.profile != 1
    || (forall i | 0 <= i < 16 :: x.key[i] == 0)
    || (cfg.role.Transmitter? && x.node != cfg.device) || (cfg.role.Receiver? && x.receiver != cfg.device)
  }

  /** Another network, or a credential that is retired, or whose key, generation or pending node is taken. */
  ghost predicate Barred(cfg: Config, s: State, x: Credential)
  {
    || Names(s.m.retired, Retired(x.generation, cfg.c.fingerprint(x.key)))
    || exists i :: 0 <= i < BINDING_CAPACITY && !s.m.registry.entries[i].state.Empty?
         && (s.m.registry.entries[i].key == x.key || s.m.registry.entries[i].generation == x.generation
             || (s.m.registry.entries[i].node == x.node && s.m.registry.entries[i].state.Prepared?))
  }

  predicate Foreign(s: State, x: Credential)
  {
    s.m.registry.network != 0
    && (x.network != s.m.registry.network || x.receiver != s.m.registry.receiver || x.profile != s.m.registry.profile)
  }

  /** Which result preparing a credential gives, in every case, and what changes. */
  lemma PrepareLaw(cfg: Config, s: State, x: Credential, t: State, result: Result)
    requires SystemInv(cfg, s.m, s.d, s.h) && s.m.health == Ready && Faultless(cfg, s, OpPrepare(x), t, result)
    ensures Unfit(cfg, x) ==> result == Result.Invalid && t == s
    ensures !Unfit(cfg, x) && Foreign(s, x) ==> result == Conflict && t == s
    ensures !Unfit(cfg, x) && !Foreign(s, x) ==>
      && (forall i: nat | Registered(s, x.node, x.generation, i) ::
            t == s && result == if s.m.registry.entries[i].key == x.key && !s.m.registry.entries[i].state.Revoked?
                                then Ok else Conflict)
      && ((forall i: nat :: !Registered(s, x.node, x.generation, i)) ==>
            if Barred(cfg, s, x) then result == Conflict && t == s
            else if forall i: nat :: !EmptyAt(s, i) && !SpentAt(s, i) then result == Full && t == s
            else exists i: nat :: i < BINDING_CAPACITY && Chosen(s, i) && Takes(cfg, s, x, i, t, result))
  {
    hide SystemInv, Allowed, Step, Faultless, PlanOf, ApplyAll, TrackAll, PreparePlan, Takes, Chosen, Barred, Find,
      Registered;
    FaultlessIs(cfg, s, OpPrepare(x), t, result);
    PreparePlanned(cfg, s, x);
    OperationSound(cfg, s.m, s.d, s.h, OpPrepare(x));
    NothingApplied(s.d, s.h);
    PrepareRefusals(cfg, s, x);
    if !Unfit(cfg, x) && !Foreign(s, x) && (forall i: nat :: !Registered(s, x.node, x.generation, i))
       && !Barred(cfg, s, x) && !(forall i: nat :: !EmptyAt(s, i) && !SpentAt(s, i)) {
      PrepareTakes(cfg, s, x, t, result);
    }
  }

  lemma UnfitIff(cfg: Config, x: Credential)
    ensures Unfit(cfg, x) <==> !WellFormed(cfg, x)
  {
  }

  lemma BarredIff(cfg: Config, s: State, x: Credential)
    ensures Barred(cfg, s, x) <==>
      || IsRetired(s.m.retired, x.generation, cfg.c.fingerprint(x.key))
      || Clashes(s.m.registry.entries, x.node, x.generation, x.key)
  {
  }

  lemma PrepareRefusals(cfg: Config, s: State, x: Credential)
    requires SystemInv(cfg, s.m, s.d, s.h) && s.m.health == Ready
    ensures
      var p := PreparePlan(cfg, s.m, x);
      && (Unfit(cfg, x) ==> p == Plan([], Result.Invalid, s.m))
      && (!Unfit(cfg, x) && Foreign(s, x) ==> p == Plan([], Conflict, s.m))
      && (!Unfit(cfg, x) && !Foreign(s, x) ==>
            && (forall i: nat | Registered(s, x.node, x.generation, i) ::
                  p == Plan([], if s.m.registry.entries[i].key == x.key && !s.m.registry.entries[i].state.Revoked?
                                then Ok else Conflict, s.m))
            && ((forall i: nat :: !Registered(s, x.node, x.generation, i)) ==>
                  && (Barred(cfg, s, x) ==> p == Plan([], Conflict, s.m))
                  && (!Barred(cfg, s, x) && (forall i: nat :: !EmptyAt(s, i) && !SpentAt(s, i)) ==>
                        p == Plan([], Full, s.m))))
  {
    hide SystemInv, WellFormed, IsRetired, Clashes, Barred, Unfit, Find, RetireOnce, PrepareAt;
    UnfitIff(cfg, x);
    BarredIff(cfg, s, x);
    FirstIsEmpty(s, BINDING_CAPACITY);
    FirstIsSpent(s, BINDING_CAPACITY);
    var found := Find(s.m.registry.entries, x.node, x.generation, BINDING_CAPACITY);
    assert found.Some? ==> Registered(s, x.node, x.generation, found.value);
    forall i: nat | Registered(s, x.node, x.generation, i) ensures found == Some(i) {
      SlotFound(cfg, s, x.node, x.generation, i);
    }
  }

  lemma PrepareTakes(cfg: Config, s: State, x: Credential, t: State, result: Result)
    requires s.m.health == Ready
    requires
      var p := PreparePlan(cfg, s.m, x);
      t.m == p.after && result == p.result && t.h.log == s.h.log
    requires !Unfit(cfg, x) && !Foreign(s, x) && (forall i: nat :: !Registered(s, x.node, x.generation, i))
    requires !Barred(cfg, s, x) && !(forall i: nat :: !EmptyAt(s, i) && !SpentAt(s, i))
    ensures exists i: nat :: i < BINDING_CAPACITY && Chosen(s, i) && Takes(cfg, s, x, i, t, result)
  {
    hide WellFormed, IsRetired, Clashes, Barred, Unfit, Find, RetireOnce, NewestOf, Names;
    UnfitIff(cfg, x);
    BarredIff(cfg, s, x);
    FirstIsEmpty(s, BINDING_CAPACITY);
    FirstIsSpent(s, BINDING_CAPACITY);
    var found := Find(s.m.registry.entries, x.node, x.generation, BINDING_CAPACITY);
    assert found.Some? ==> Registered(s, x.node, x.generation, found.value);
    var empty := FirstEmpty(s.m.registry.entries, BINDING_CAPACITY);
    var freed := Reclaimable(s.m, BINDING_CAPACITY);
    if empty.Some? {
      assert EmptyAt(s, empty.value) && Chosen(s, empty.value);
      assert Takes(cfg, s, x, empty.value, t, result);
    } else {
      var i := freed.value;
      RetireOnceAdds(cfg.c, s.m.retired, s.m.registry.entries, i);
      assert Chosen(s, i) && Takes(cfg, s, x, i, t, result);
    }
  }

  lemma RetireOnceAdds(c: Crypto, l: RetiredList, es: Entries, i: nat)
    requires i < BINDING_CAPACITY
    ensures RetireOnce(c, l, es[i]) == if Names(l, MarkAt(c, es, i)) then l else NewestOf(l + [MarkAt(c, es, i)])
  {
    RetireIsNewest(l, es[i].generation, c.fingerprint(es[i].key));
    assert NewestOf(l) == l;
  }

  // ------------------------------------------------------------------ mount

  /** The frame is DATA sealed for the entry, under the counter. */
  ghost predicate SealedFor(c: Crypto, e: Entry, network: u64, f: Frame, counter: u64)
  {
    var m := Open(c, Binding(network, e.node, e.key, true), f);
    m.Done? && m.value.kind.DataKind? && m.value.counter == counter
  }

  /** The slot's receipt is readable and, unless an earlier credential left it, that of a sample of the slot's. */
  ghost predicate ReceiptSound(cfg: Config, d: Disk, i: nat)
    requires i < BINDING_CAPACITY
  {
    var e := Reg(d).entries[i];
    !e.state.Empty? && i in d.receipts ==>
      var r := d.receipts[i];
      && ReceiptFits(r)
      && (r.generation == e.generation ==>
            && !e.state.Prepared? && r.counter != 0 && SealedFor(cfg.c, e, Reg(d).network, r.last, r.counter)
            && (FrameVersion(r.last) == WIRE_V2 || r.ackPower == KEEP_POWER))
  }

  /** The queue record of a sequence is readable, and of a sample no newer than its enrollment's receipt. */
  ghost predicate QueuedSound(cfg: Config, d: Disk, s: nat)
  {
    s % QUEUE_CAPACITY in d.ring &&
    var r := d.ring[s % QUEUE_CAPACITY];
    && QueueFits(r) && r.sequence == s
    && (var e := Reg(d).entries[r.slot];
        && (e.state.Active? || e.state.Revoked?) && e.generation == r.generation
        && exists counter: u64 :: SealedFor(cfg.c, e, Reg(d).network, r.frame, counter)
             && counter <= (if r.slot in d.receipts && d.receipts[r.slot].generation == e.generation
                            then d.receipts[r.slot].counter else 0))
  }

  ghost predicate LiveReceipt(d: Disk, i: nat)
  {
    && i < BINDING_CAPACITY && !Reg(d).entries[i].state.Empty? && i in d.receipts
    && d.receipts[i].generation == Reg(d).entries[i].generation
  }

  /** The head or, when that is further, one past the last queue position of any live receipt. */
  ghost predicate Furthest(d: Disk, tail: nat)
  {
    && Head(d) <= tail && (forall i: nat | LiveReceipt(d, i) :: d.receipts[i].through <= tail)
    && (tail == Head(d) || exists i: nat :: LiveReceipt(d, i) && d.receipts[i].through == tail)
  }

  ghost predicate ReceiverSound(cfg: Config, d: Disk, tail: nat)
  {
    && Head(d) <= UINT64_MAX && (forall i: nat | i < BINDING_CAPACITY :: ReceiptSound(cfg, d, i))
    && tail - Head(d) <= QUEUE_CAPACITY && (forall s: nat | Head(d) <= s < tail :: QueuedSound(cfg, d, s))
  }

  /** No two credentials share a key, a generation or a pending node; few enough are active and none of them retired. */
  ghost predicate CredentialsSound(cfg: Config, es: Entries, retired: seq<Retired>)
  {
    && (forall i, j | 0 <= i < j < BINDING_CAPACITY && !es[i].state.Empty? && !es[j].state.Empty? ::
          && es[i].key != es[j].key && es[i].generation != es[j].generation
          && !(es[i].node == es[j].node && es[i].state.Prepared? && es[j].state.Prepared?))
    && (forall i | 0 <= i < BINDING_CAPACITY && es[i].state.Active? ::
          ActiveOf(es, es[i].node, BINDING_CAPACITY) <= if cfg.role.Receiver? then 2 else 1)
    && (forall i | 0 <= i < BINDING_CAPACITY && (es[i].state.Active? || es[i].state.Prepared?) ::
          !Names(retired, MarkAt(cfg.c, es, i)))
  }

  lemma CredentialsSoundIff(cfg: Config, es: Entries, retired: seq<Retired>)
    ensures CredentialsSound(cfg, es, retired) <==> Validated(cfg, es, retired)
  {
    hide ActiveOf;
    if CredentialsSound(cfg, es, retired) {
      forall i, j | 0 <= i < BINDING_CAPACITY && 0 <= j < BINDING_CAPACITY && i != j
        ensures !es[i].state.Empty? && !es[j].state.Empty? ==> Apart(es[i], es[j])
      {
        assert i < j || j < i;
      }
      forall i | 0 <= i < BINDING_CAPACITY && !es[i].state.Empty? && !es[i].state.Revoked?
        ensures !IsRetired(retired, es[i].generation, cfg.c.fingerprint(es[i].key))
      {
        assert !Names(retired, MarkAt(cfg.c, es, i));
      }
    }
    if Validated(cfg, es, retired) {
      forall i, j | 0 <= i < j < BINDING_CAPACITY && !es[i].state.Empty? && !es[j].state.Empty?
        ensures Apart(es[i], es[j])
      {
      }
      forall i | 0 <= i < BINDING_CAPACITY && (es[i].state.Active? || es[i].state.Prepared?)
        ensures !Names(retired, MarkAt(cfg.c, es, i))
      {
        assert !IsRetired(retired, es[i].generation, cfg.c.fingerprint(es[i].key));
      }
    }
  }

  lemma {:induction false} ReceiptsSoundIff(cfg: Config, d: Disk, n: nat)
    requires n <= BINDING_CAPACITY
    ensures ReceiptsHealth(cfg.c, Reg(d), d.receipts, n) == Ready <==> forall i: nat | i < n :: ReceiptSound(cfg, d, i)
  {
    hide Open, ReceiptFits;
    if n != 0 {
      ReceiptsSoundIff(cfg, d, n - 1);
      assert SlotHealth(cfg.c, Reg(d), d.receipts, n - 1) == Ready <==> ReceiptSound(cfg, d, n - 1);
    }
  }

  lemma {:induction false} QueueSoundIff(cfg: Config, d: Disk, lo: nat, hi: nat)
    requires lo <= hi
    ensures QueueHealth(cfg.c, Reg(d), Live(Reg(d), d.receipts), d.ring, lo, hi) == Ready
       <==> forall s: nat | lo <= s < hi :: QueuedSound(cfg, d, s)
  {
    hide Open, QueuedSound, ItemHealth;
    if lo != hi {
      QueueSoundIff(cfg, d, lo, hi - 1);
      ItemSoundIff(cfg, d, hi - 1);
    }
  }

  lemma ItemSoundIff(cfg: Config, d: Disk, s: nat)
    ensures ItemHealth(cfg.c, Reg(d), Live(Reg(d), d.receipts), d.ring, s) == Ready <==> QueuedSound(cfg, d, s)
  {
    hide Open;
    if s % QUEUE_CAPACITY in d.ring && QueueFits(d.ring[s % QUEUE_CAPACITY]) {
      var r := d.ring[s % QUEUE_CAPACITY];
      var e := Reg(d).entries[r.slot];
      var counter := FrameCounter(cfg.c, e, Reg(d).network, r.frame);
      if counter.Some? {
        assert SealedFor(cfg.c, e, Reg(d).network, r.frame, counter.value);
      }
    }
  }

  lemma {:induction false} TailIsFurthest(d: Disk, n: nat)
    requires n <= BINDING_CAPACITY
    ensures
      var t := TailOf(Head(d), Live(Reg(d), d.receipts), n);
      && Head(d) <= t && (forall i: nat | LiveReceipt(d, i) && i < n :: d.receipts[i].through <= t)
      && (t == Head(d) || exists i: nat :: LiveReceipt(d, i) && d.receipts[i].through == t)
  {
    if n != 0 {
      TailIsFurthest(d, n - 1);
      if LiveReceipt(d, n - 1) {
        assert Live(Reg(d), d.receipts)[n - 1] == d.receipts[n - 1];
      }
    }
  }

  /** The receiver's records load exactly when each is sound. */
  lemma ReceiverLoads(cfg: Config, d: Disk) returns (tail: nat)
    ensures Furthest(d, tail)
    ensures
      var m := LoadReceiver(cfg, d);
      && (m.health == Ready <==> ReceiverSound(cfg, d, tail))
      && (m.health == Ready ==>
            && m.registry == Reg(d) && m.retired == Ret(d) && m.head == Head(d) && m.tail == tail
            && m.receipts == Live(Reg(d), d.receipts))
  {
    hide ReceiptSound, QueuedSound, ReceiptsHealth, QueueHealth, TailOf, CountsOf, Live, Furthest;
    tail := TailOf(Head(d), Live(Reg(d), d.receipts), BINDING_CAPACITY);
    ReceiptsSoundIff(cfg, d, BINDING_CAPACITY);
    FurthestTail(d);
    QueueSoundIff(cfg, d, Head(d), tail);
  }

  lemma FurthestTail(d: Disk)
    ensures
      var t := TailOf(Head(d), Live(Reg(d), d.receipts), BINDING_CAPACITY);
      Head(d) <= t && Furthest(d, t)
  {
    TailIsFurthest(d, BINDING_CAPACITY);
  }

  /**
   * A mount succeeds exactly when every record is readable and the records agree, and then recovers
   * the live receipts and the queue from the head to the furthest of them.
   */
  lemma MountLaw(cfg: Config, d: Disk) returns (tail: nat)
    ensures Furthest(d, tail)
    ensures LoadDisk(cfg, d).health == Ready <==>
      && (d.registry.Some? ==> RegistryFits(cfg.role, cfg.device, Reg(d))) && RetiredFits(Ret(d))
      && CredentialsSound(cfg, Reg(d).entries, Ret(d))
      && (cfg.role.Receiver? ==> ReceiverSound(cfg, d, tail))
    ensures LoadDisk(cfg, d).health == Ready ==>
      var m := LoadDisk(cfg, d);
      && m.registry == Reg(d) && m.retired == Ret(d)
      && (cfg.role.Receiver? ==>
            && m.head == Head(d) && m.tail == tail
            && forall i: nat | i < BINDING_CAPACITY ::
                 m.receipts[i] == if LiveReceipt(d, i) then d.receipts[i] else NO_RECEIPT_RECORD)
  {
    hide CredentialsSound, Validated, ReceiverSound, LoadReceiver, RegistryFits, RetiredFits, Furthest;
    CredentialsSoundIff(cfg, Reg(d).entries, Ret(d));
    tail := ReceiverLoads(cfg, d);
  }
}
