// Reserved counters never go back: while a key is enrolled on the node its counter only grows,
// over every operation and every power cut, and a key that left never returns.
module NodeCounters {
  import opened Protocol
  import opened Records
  import opened Store
  import opened StoreInvariant
  import opened StoreSafety
  import opened StoreOps
  import opened StoreRuns

  /** Nothing above `n` was ever reserved for the key: it is enrolled at `n` or beyond, or gone. */
  ghost predicate Floor(d: Disk, h: History, key: Key, n: u64)
  {
    || key in h.goneKeys
    || exists s :: 0 <= s < BINDING_CAPACITY && CounterHeld(Reg(d).entries[s], key, n)
  }

  predicate CounterHeld(e: Entry, key: Key, n: u64) { !e.state.Empty? && e.key == key && e.counter >= n }

  /** Every entry keeps its key and at least its counter, or its key leaves. */
  ghost predicate KeepsCounters(a: Entries, b: Entries)
  {
    forall i | 0 <= i < BINDING_CAPACITY && !a[i].state.Empty? ::
      (!b[i].state.Empty? && b[i].key == a[i].key && b[i].counter >= a[i].counter) || a[i].key !in Keys(b)
  }

  ghost predicate CountersKept(d: Disk, ws: seq<Write>)
    decreases ws
  {
    ws != [] ==>
      && (ws[0].SaveRegistry? ==> KeepsCounters(Reg(d).entries, ws[0].registry.entries))
      && CountersKept(Apply(d, ws[0]), ws[1..])
  }

  lemma WriteKeepsFloor(d: Disk, h: History, w: Write, key: Key, n: u64)
    requires Floor(d, h, key, n) && (w.SaveRegistry? ==> KeepsCounters(Reg(d).entries, w.registry.entries))
    ensures Floor(Apply(d, w), Track(h, d, w), key, n)
  {
    if key !in h.goneKeys {
      var s :| 0 <= s < BINDING_CAPACITY && CounterHeld(Reg(d).entries[s], key, n);
      if w.SaveRegistry? {
        assert key in Keys(Reg(d).entries) && Reg(Apply(d, w)) == w.registry;
        if key in Keys(w.registry.entries) {
          assert CounterHeld(Reg(Apply(d, w)).entries[s], key, n);
        } else {
          assert key in Track(h, d, w).goneKeys;
        }
      } else {
        assert CounterHeld(Reg(Apply(d, w)).entries[s], key, n);
      }
    }
  }

  lemma {:induction false} PrefixKeepsFloor(d: Disk, h: History, ws: seq<Write>, k: nat, key: Key, n: u64)
    requires Floor(d, h, key, n) && CountersKept(d, ws) && k <= |ws|
    ensures Floor(ApplyAll(d, ws[..k]), TrackAll(h, d, ws[..k]), key, n)
    decreases ws
  {
    if k != 0 {
      hide Floor, KeepsCounters;
      WriteKeepsFloor(d, h, ws[0], key, n);
      PrefixKeepsFloor(Apply(d, ws[0]), Track(h, d, ws[0]), ws[1..], k - 1, key, n);
      assert ws[1..][..k - 1] == ws[..k][1..];
    }
  }

  // ------------------------------------------------------------------ each operation

  lemma MovesKeepCounters(a: Entries, b: Entries)
    requires forall i | 0 <= i < BINDING_CAPACITY :: Moves(a[i], b[i]) && b[i].counter >= a[i].counter
    ensures KeepsCounters(a, b)
  {
    forall i | 0 <= i < BINDING_CAPACITY && !a[i].state.Empty?
      ensures !b[i].state.Empty? && b[i].key == a[i].key && b[i].counter >= a[i].counter
    {
      assert Moves(a[i], b[i]);
    }
  }

  lemma OneRegistryWrite(d: Disk, ws: seq<Write>)
    requires |ws| == 1 && (ws[0].SaveRegistry? ==> KeepsCounters(Reg(d).entries, ws[0].registry.entries))
    ensures CountersKept(d, ws)
  {
    assert ws[1..] == [];
  }

  lemma SaveNextKeeps(d: Disk, m: Mem, next: Registry, after: Mem)
    requires KeepsCounters(Reg(d).entries, next.entries)
    ensures CountersKept(d, SaveNext(m, [], next, after).writes)
  {
    hide KeepsCounters;
    var ws := SaveNext(m, [], next, after).writes;
    if ws != [] {
      OneRegistryWrite(d, ws);
    }
  }

  /** The replaced credential's key is not the new one's, nor any other slot's: it leaves. */
  lemma PlacedKeepsCounters(cfg: Config, es: Entries, retired: RetiredList, slot: nat, x: Credential)
    requires Validated(cfg, es, retired) && slot < BINDING_CAPACITY && !Clashes(es, x.node, x.generation, x.key)
    ensures KeepsCounters(es, es[slot := Entry(Prepared, x.node, x.generation, 0, x.key)])
  {
    var b := es[slot := Entry(Prepared, x.node, x.generation, 0, x.key)];
    if !es[slot].state.Empty? {
      forall i | 0 <= i < BINDING_CAPACITY && !b[i].state.Empty? ensures b[i].key != es[slot].key {
        if i != slot {
          assert Apart(es[i], es[slot]);
        }
      }
    }
  }

  lemma PrepareAtKeeps(d: Disk, m: Mem, first: seq<Write>, slot: nat, x: Credential)
    requires m.registry == Reg(d) && slot < BINDING_CAPACITY
    requires KeepsCounters(m.registry.entries,
                           m.registry.entries[slot := Entry(Prepared, x.node, x.generation, 0, x.key)])
    requires first == [] || (|first| == 1 && first[0].SaveRetired?)
    ensures CountersKept(d, PrepareAt(m, first, slot, x).writes)
  {
    hide KeepsCounters;
    var ws := PrepareAt(m, first, slot, x).writes;
    var last := ws[|first|..];
    var d1 := if first == [] then d else Apply(d, first[0]);
    assert ws == first + last;
    if last != [] {
      OneRegistryWrite(d1, last);
    }
    if first != [] {
      assert ws[1..] == last;
    }
  }

  lemma PrepareKeeps(cfg: Config, m: Mem, d: Disk, x: Credential)
    requires m.registry == Reg(d) && Validated(cfg, m.registry.entries, m.retired)
    ensures CountersKept(d, PreparePlan(cfg, m, x).writes)
  {
    hide Validated, WellFormed, IsRetired, RetireOnce, SameNetwork, Find, PrepareAt, KeepsCounters;
    var es := m.registry.entries;
    if !Clashes(es, x.node, x.generation, x.key) {
      var empty := FirstEmpty(es, BINDING_CAPACITY);
      if empty.Some? {
        PlacedKeepsCounters(cfg, es, m.retired, empty.value, x);
        PrepareAtKeeps(d, m, [], empty.value, x);
      } else {
        var freed := Reclaimable(m, BINDING_CAPACITY);
        if freed.Some? {
          var l := RetireOnce(cfg.c, m.retired, es[freed.value]);
          PlacedKeepsCounters(cfg, es, m.retired, freed.value, x);
          PrepareAtKeeps(d, m.(retired := l), [SaveRetired(l)], freed.value, x);
        }
      }
    }
  }

  lemma EmptiedKeepsCounters(a: Entries)
    ensures KeepsCounters(a, NoEntries())
  {
  }

  lemma ResetKeeps(cfg: Config, m: Mem, d: Disk, discardQueue: bool)
    requires m.registry == Reg(d)
    ensures CountersKept(d, ResetPlan(cfg, m, discardQueue).writes)
  {
    hide RetireAll;
    var es := m.registry.entries;
    MovesKeepCounters(es, AllRevoked(es));
    EmptiedKeepsCounters(AllRevoked(es));
    hide KeepsCounters, AllRevoked;
    var ws := ResetPlan(cfg, m, discardQueue).writes;
    if ws != [] {
      var d1 := Apply(d, ws[0]);
      var d2 := Apply(d1, ws[1]);
      if |ws| > 2 && ws[2].SaveHead? {
        KeptTail(Apply(d2, ws[2]), ws[3..], AllRevoked(es));
        assert ws[2..][1..] == ws[3..];
        assert CountersKept(d2, ws[2..]);
      } else {
        KeptTail(d2, ws[2..], AllRevoked(es));
      }
      assert ws[1..][1..] == ws[2..];
      assert CountersKept(d1, ws[1..]);
    }
  }

  lemma KeptTail(d: Disk, ws: seq<Write>, es: Entries)
    requires Reg(d).entries == es && KeepsCounters(es, NoEntries()) && |ws| <= 1
    requires ws != [] ==> ws[0].SaveRegistry? && ws[0].registry.entries == NoEntries()
    ensures CountersKept(d, ws)
  {
    if ws != [] {
      OneRegistryWrite(d, ws);
    }
  }

  lemma ReserveKeeps(cfg: Config, m: Mem, d: Disk, b: Binding)
    requires m.registry == Reg(d)
    ensures CountersKept(d, ReservePlan(cfg, m, b).writes)
  {
    var found := Authorized(m, b);
    if found.Some? && cfg.role.Transmitter? && m.registry.entries[found.value].counter != UINT64_MAX {
      var es := m.registry.entries;
      var next := es[found.value := es[found.value].(counter := es[found.value].counter + 1)];
      MovesKeepCounters(es, next);
      SaveNextKeeps(d, m, m.registry.(entries := next), m);
    }
  }

  lemma StatesKeep(m: Mem, d: Disk, node: u64, generation: u64)
    requires m.registry == Reg(d)
    ensures CountersKept(d, ActivatePlan(m, node, generation).writes)
    ensures CountersKept(d, RevokePlan(m, node, generation).writes)
  {
    var es := m.registry.entries;
    var found := Find(es, node, generation, BINDING_CAPACITY);
    if m.health == Ready && found.Some? {
      var active := Activated(Superseding(es, node, -1), found.value);
      if es[found.value].state.Prepared? {
        MovesKeepCounters(es, active);
        SaveNextKeeps(d, m, m.registry.(entries := active), m);
      }
      var revoked := es[found.value := Revoke(es[found.value])];
      MovesKeepCounters(es, revoked);
      SaveNextKeeps(d, m, m.registry.(entries := revoked), m);
    }
  }

  lemma QueueNeverWritten(cfg: Config, m: Mem, d: Disk, h: History, op: Op)
    requires SystemInv(cfg, m, d, h) && cfg.role.Transmitter? && m.health == Ready
    requires op.OpAlongside? || op.OpCommit? || op.OpForwarded?
    ensures PlanOf(cfg, m, d, op).writes == []
  {
    assert m.head == m.tail;
    hide SystemInv;
  }

  lemma OperationKeeps(cfg: Config, m: Mem, d: Disk, h: History, op: Op)
    requires SystemInv(cfg, m, d, h) && cfg.role.Transmitter?
    ensures CountersKept(d, PlanOf(cfg, m, d, op).writes)
  {
    if m.health == Ready {
      assert m.registry == Reg(d) && Validated(cfg, m.registry.entries, m.retired) by { assert m.retired == Ret(d); }
      hide SystemInv, Validated;
      match op
      case OpPrepare(x) => PrepareKeeps(cfg, m, d, x);
      case OpActivate(node, generation) => StatesKeep(m, d, node, generation);
      case OpRevoke(node, generation) => StatesKeep(m, d, node, generation);
      case OpReserve(b) => ReserveKeeps(cfg, m, d, b);
      case OpReset(discardQueue) => ResetKeeps(cfg, m, d, discardQueue);
      case _ => QueueNeverWritten(cfg, m, d, h, op);
    }
  }

  /** Over one step of the node's store, however it is cut, no counter goes back. */
  lemma StepKeepsFloor(cfg: Config, s: State, e: Event, t: State, key: Key, n: u64)
    requires SystemInv(cfg, s.m, s.d, s.h) && Step(cfg, s, e, t) && cfg.role.Transmitter?
    requires Floor(s.d, s.h, key, n)
    ensures Floor(t.d, t.h, key, n)
  {
    hide SystemInv, Floor, CountersKept, PlanOf, Allowed, ApplyAll, TrackAll, LoadDisk;
    if e.Remount? {
      RemountKeepsFloor(cfg, s, t, key, n);
    } else {
      var ws := PlanOf(cfg, s.m, s.d, e.op).writes;
      OperationKeeps(cfg, s.m, s.d, s.h, e.op);
      if e.Cut? {
        PrefixKeepsFloor(s.d, s.h, ws, e.k, key, n);
      } else {
        PrefixKeepsFloor(s.d, s.h, ws, |ws|, key, n);
        assert ws[..|ws|] == ws;
      }
    }
  }

  lemma RemountKeepsFloor(cfg: Config, s: State, t: State, key: Key, n: u64)
    requires Mounted(cfg, s, t) && Floor(s.d, s.h, key, n)
    ensures Floor(t.d, t.h, key, n)
  {
    hide LoadDisk;
    assert Reg(t.d) == Reg(s.d);
  }
}
