// USB enrollment (tools/provision.py): one credential placed on two devices through a recovery
// file, resumable after lost replies, restarts and interruptions.
module Provisioning {
  import opened Protocol
  import opened Records
  import opened Store
  import opened StoreInvariant
  import opened StoreOps
  import opened StoreRuns
  import opened StoreObject
  import opened StoreLaws
  import StoreLimits
  import opened PairingStore
  import opened NodeCounters

  datatype Phase = NewTransaction | ReceiverPrepared | BothPrepared | ReceiverActive | Configured

  function Rank(p: Phase): nat
  {
    match p
    case NewTransaction => 0
    case ReceiverPrepared => 1
    case BothPrepared => 2
    case ReceiverActive => 3
    case Configured => 4
  }

  /** The recovery file; only its phase changes, and saving replaces it atomically. */
  class RecoveryFile {
    const x: Credential
    var phase: Phase
    /** How often saving was interrupted. */
    ghost var interrupted: nat

    constructor (credential: Credential)
      ensures x == credential && phase == NewTransaction
    {
      x, phase, interrupted := credential, NewTransaction, 0;
    }

    /** `advance`: false when interrupted, before or after the file was replaced. */
    method Advance(p: Phase) returns (ok: bool)
      modifies this
      ensures interrupted == old(interrupted) + if ok then 0 else 1
      ensures phase == old(phase) || (phase == p && Rank(p) > Rank(old(phase)))
      ensures ok ==> Rank(phase) >= Rank(p)
    {
      ok := true;
      if Rank(p) > Rank(phase) {
        var saved: bool := *;
        ok := *;
        ok := ok && saved;
        if saved {
          phase := p;
        }
      }
      interrupted := interrupted + if ok then 0 else 1;
    }
  }

  /** The serial line to the devices; a request or a reply may be lost, and a device may restart. */
  class Line {
    ghost var troubles: nat

    constructor ()
      ensures troubles == 0
    {
      troubles := 0;
    }

    method Goes() returns (well: bool)
      modifies this
      ensures troubles == old(troubles) + if well then 0 else 1
    {
      well := *;
      troubles := troubles + if well then 0 else 1;
    }
  }

  // ------------------------------------------------------------------ what a device does with a credential

  /** The credential was revoked here, or retired: no command of the script brings it back. */
  predicate Barred(cfg: Config, m: Mem, x: Credential)
  {
    || (exists i :: 0 <= i < BINDING_CAPACITY && Holds(m.registry.entries[i], x.node, x.generation)
          && m.registry.entries[i].state.Revoked?)
    || (IsRetired(m.retired, x.generation, cfg.c.fingerprint(x.key))
          && forall i | 0 <= i < BINDING_CAPACITY :: !Holds(m.registry.entries[i], x.node, x.generation))
  }

  /** A barred credential is refused without a write. */
  lemma BarredRefused(cfg: Config, s: State, x: Credential)
    requires SystemInv(cfg, s.m, s.d, s.h) && s.m.health == Ready && Barred(cfg, s.m, x)
    ensures PreparePlan(cfg, s.m, x).writes == [] && PreparePlan(cfg, s.m, x).after == s.m
    ensures PreparePlan(cfg, s.m, x).result != Ok
  {
    var es := s.m.registry.entries;
    var existing := Find(es, x.node, x.generation, BINDING_CAPACITY);
    if i :| 0 <= i < BINDING_CAPACITY && Holds(es[i], x.node, x.generation) && es[i].state.Revoked? {
      FoundIs(cfg, s, i, existing.value, x);
    }
    hide SystemInv, WellFormed, Clashes, RetireOnce, PrepareAt, SameNetwork;
  }

  lemma FoundIs(cfg: Config, s: State, i: nat, j: nat, x: Credential)
    requires SystemInv(cfg, s.m, s.d, s.h) && s.m.health == Ready && i < BINDING_CAPACITY && j < BINDING_CAPACITY
    requires Holds(s.m.registry.entries[i], x.node, x.generation)
      && Holds(s.m.registry.entries[j], x.node, x.generation)
    ensures i == j
  {
    assert s.m.registry == Reg(s.d);
    hide Inv, LoadDisk;
    StoreServing.OneSlotEach(cfg, s.m, s.d, s.h, i, j);
  }

  lemma RefusedStays(cfg: Config, s: State, x: Credential, t: State, result: Result)
    requires SystemInv(cfg, s.m, s.d, s.h) && s.m.health == Ready && Barred(cfg, s.m, x)
    requires Followed(cfg, s, OpPrepare(x), t, result)
    ensures t.d == s.d && t.h == s.h && result != Ok
  {
    BarredRefused(cfg, s, x);
    PreparePlanned(cfg, s, x);
    hide SystemInv, PreparePlan, Barred;
    var op := OpPrepare(x);
    if Step(cfg, s, Finished(op), t) && result == PlanOf(cfg, s.m, s.d, op).result {
    } else {
      var k: nat :| Step(cfg, s, Cut(op, k), t);
      assert k == 0;
    }
  }

  /** A restart brings back exactly the enrollments that were durable. */
  lemma RestartKeeps(cfg: Config, s: State, t: State, x: Credential)
    requires SystemInv(cfg, s.m, s.d, s.h) && Step(cfg, s, Remount, t)
    ensures t.m.health == Ready && SystemInv(cfg, t.m, t.d, t.h)
    ensures Enrolled(s.m, x) ==> Enrolled(t.m, x)
    ensures InService(s.m, x) ==> InService(t.m, x)
    ensures s.m.health == Ready && Barred(cfg, s.m, x) ==> Barred(cfg, t.m, x)
    ensures t.h == s.h && Reg(t.d) == Reg(s.d) && Ret(t.d) == Ret(s.d)
  {
    StepKeeps(cfg, s, Remount, t);
    Mounts(cfg, s.d, s.h);
    hide Inv, LoadDisk;
    assert s.m.health == Ready ==> s.m.registry == Reg(s.d) && s.m.retired == Ret(s.d);
    assert t.m.registry == Reg(t.d) && t.m.retired == Ret(t.d);
  }

  lemma RestartAllows(cfg: Config, s: State, t: State, x: Credential)
    requires Allowed(cfg, s.m, s.d, s.h, OpPrepare(x)) && t.h == s.h && Reg(t.d) == Reg(s.d) && Ret(t.d) == Ret(s.d)
    ensures Allowed(cfg, t.m, t.d, t.h, OpPrepare(x))
  {
    hide IsRetired;
  }

  /** Whatever a call did, no counter of the node went back. */
  lemma CallKeepsFloors(cfg: Config, s: State, op: Op, t: State, result: Result)
    requires SystemInv(cfg, s.m, s.d, s.h) && Followed(cfg, s, op, t, result) && cfg.role.Transmitter?
    ensures forall key, n | Floor(s.d, s.h, key, n) :: Floor(t.d, t.h, key, n)
  {
    hide SystemInv, Floor, Step;
    forall key, n | Floor(s.d, s.h, key, n) ensures Floor(t.d, t.h, key, n) {
      if Step(cfg, s, Finished(op), t) {
        StepKeepsFloor(cfg, s, Finished(op), t, key, n);
      } else {
        var k: nat :| Step(cfg, s, Cut(op, k), t);
        StepKeepsFloor(cfg, s, Cut(op, k), t, key, n);
      }
    }
  }

  lemma RestartKeepsFloors(cfg: Config, s: State, t: State)
    requires SystemInv(cfg, s.m, s.d, s.h) && Step(cfg, s, Remount, t) && cfg.role.Transmitter?
    ensures forall key, n | Floor(s.d, s.h, key, n) :: Floor(t.d, t.h, key, n)
  {
    hide SystemInv, Floor, Step;
    forall key, n | Floor(s.d, s.h, key, n) ensures Floor(t.d, t.h, key, n) {
      StepKeepsFloor(cfg, s, Remount, t, key, n);
    }
  }

  // ------------------------------------------------------------------ the credential may be prepared again

  /** Every registry written has the credential, and no key but it that was not there before. */
  ghost predicate Carrying(d: Disk, ws: seq<Write>, x: Credential)
  {
    forall i | 0 <= i < |ws| && ws[i].SaveRegistry? ::
      var es := ws[i].registry.entries;
      x.generation in Generations(es) && x.key in Keys(es) && Keys(es) <= Keys(Reg(d).entries) + {x.key}
  }

  lemma {:induction false} CarryingKeeps(h: History, d: Disk, d0: Disk, ws: seq<Write>, x: Credential)
    requires Carrying(d0, ws, x) && Keys(Reg(d).entries) <= Keys(Reg(d0).entries) + {x.key}
    ensures x.generation in TrackAll(h, d, ws).goneGenerations ==> x.generation in h.goneGenerations
    ensures x.key in TrackAll(h, d, ws).goneKeys ==> x.key in h.goneKeys
    ensures Keys(Reg(ApplyAll(d, ws)).entries) <= Keys(Reg(d0).entries) + {x.key}
    decreases ws
  {
    if ws != [] {
      hide Generations, Keys;
      CarryingKeeps(Track(h, d, ws[0]), Apply(d, ws[0]), d0, ws[1..], x);
    }
  }

  /** A credential that did not leave the device may be prepared again after any of the writes. */
  lemma StillAllowed(cfg: Config, s: State, ws: seq<Write>, x: Credential, t: State)
    requires Allowed(cfg, s.m, s.d, s.h, OpPrepare(x)) && Carrying(s.d, ws, x)
    requires ws != [] ==> x.generation !in s.h.goneGenerations && x.key !in s.h.goneKeys
    requires t.d == ApplyAll(s.d, ws) && t.h == TrackAll(s.h, s.d, ws)
    ensures Allowed(cfg, t.m, t.d, t.h, OpPrepare(x))
  {
    hide IsRetired;
    CarryingKeeps(s.h, s.d, s.d, ws, x);
    forall i | 0 <= i < BINDING_CAPACITY && !Reg(t.d).entries[i].state.Empty? && Reg(t.d).entries[i].key != x.key
      ensures cfg.c.fingerprint(Reg(t.d).entries[i].key) != cfg.c.fingerprint(x.key)
    {
      assert Reg(t.d).entries[i].key in Keys(Reg(t.d).entries);
      assert Reg(t.d).entries[i].key in Keys(Reg(s.d).entries);
    }
  }

  lemma PlacedCarries(d: Disk, slot: nat, x: Credential, r: Registry)
    requires slot < BINDING_CAPACITY && r.entries
      == Reg(d).entries[slot := Entry(Prepared, x.node, x.generation, 0, x.key)]
    ensures x.generation in Generations(r.entries) && x.key in Keys(r.entries)
    ensures Keys(r.entries) <= Keys(Reg(d).entries) + {x.key}
  {
    assert r.entries[slot].generation == x.generation && r.entries[slot].key == x.key;
    forall k | k in Keys(r.entries) && k != x.key ensures k in Keys(Reg(d).entries) {
      var i :| 0 <= i < BINDING_CAPACITY && !r.entries[i].state.Empty? && r.entries[i].key == k;
      assert Reg(d).entries[i] == r.entries[i];
    }
  }

  lemma PrepareCarries(cfg: Config, s: State, x: Credential)
    requires SystemInv(cfg, s.m, s.d, s.h) && Allowed(cfg, s.m, s.d, s.h, OpPrepare(x))
    ensures Carrying(s.d, PreparePlan(cfg, s.m, x).writes, x)
    ensures PreparePlan(cfg, s.m, x).writes != [] ==> x.generation !in s.h.goneGenerations && x.key !in s.h.goneKeys
  {
    hide SystemInv, PreparePlan, WellFormed, IsRetired, Generations, Keys, Inv;
    var ws := PreparePlan(cfg, s.m, x).writes;
    if ws != [] {
      var slot := PrepareWrites(cfg, s.m, x);
      StoreLimits.ReadyIsDisk(cfg, s.m, s.d, s.h);
      forall i | 0 <= i < |ws| && ws[i].SaveRegistry?
        ensures x.generation in Generations(ws[i].registry.entries) && x.key in Keys(ws[i].registry.entries)
        ensures Keys(ws[i].registry.entries) <= Keys(Reg(s.d).entries) + {x.key}
      {
        PlacedCarries(s.d, slot, x, ws[i].registry);
      }
    }
  }

  /** The only registry `prepare` writes has the credential in the slot it chose. */
  lemma PrepareWrites(cfg: Config, m: Mem, x: Credential) returns (slot: nat)
    requires PreparePlan(cfg, m, x).writes != []
    ensures m.health == Ready && !IsRetired(m.retired, x.generation, cfg.c.fingerprint(x.key))
      && slot < BINDING_CAPACITY
    ensures
      var ws := PreparePlan(cfg, m, x).writes;
      forall i | 0 <= i < |ws| && ws[i].SaveRegistry? ::
        ws[i].registry.entries == m.registry.entries[slot := Entry(Prepared, x.node, x.generation, 0, x.key)]
  {
    hide WellFormed, IsRetired, SameNetwork, Find, Clashes, RetireOnce;
    var empty := FirstEmpty(m.registry.entries, BINDING_CAPACITY);
    slot := if empty.Some? then empty.value else Reclaimable(m, BINDING_CAPACITY).value;
    hide FirstEmpty, Reclaimable;
  }

  /** After PREPARE, whatever became of it, the same PREPARE may be asked for again. */
  lemma PrepareKeepsAllowed(cfg: Config, s: State, x: Credential, t: State, result: Result)
    requires SystemInv(cfg, s.m, s.d, s.h) && Allowed(cfg, s.m, s.d, s.h, OpPrepare(x))
    requires Followed(cfg, s, OpPrepare(x), t, result)
    ensures Allowed(cfg, t.m, t.d, t.h, OpPrepare(x))
  {
    hide SystemInv, Allowed, PreparePlan, Carrying;
    var op := OpPrepare(x);
    PrepareCarries(cfg, s, x);
    PreparePlanned(cfg, s, x);
    var ws := PlanOf(cfg, s.m, s.d, op).writes;
    hide PlanOf;
    if Step(cfg, s, Finished(op), t) {
      StillAllowed(cfg, s, ws, x, t);
    } else {
      var k: nat :| Step(cfg, s, Cut(op, k), t);
      PrefixCarries(s.d, ws, k, x);
      StillAllowed(cfg, s, ws[..k], x, t);
    }
  }

  lemma PrefixCarries(d: Disk, ws: seq<Write>, k: nat, x: Credential)
    requires Carrying(d, ws, x) && k <= |ws|
    ensures Carrying(d, ws[..k], x)
  {
    hide Generations, Keys;
    assert forall i | 0 <= i < k :: ws[..k][i] == ws[i];
  }

  lemma ActivateCarries(cfg: Config, s: State, x: Credential)
    requires SystemInv(cfg, s.m, s.d, s.h) && Enrolled(s.m, x)
    ensures Carrying(s.d, ActivatePlan(s.m, x.node, x.generation).writes, x)
    ensures ActivatePlan(s.m, x.node, x.generation).writes != [] ==>
      x.generation !in s.h.goneGenerations && x.key !in s.h.goneKeys
  {
    var ws := ActivatePlan(s.m, x.node, x.generation).writes;
    if ws != [] {
      assert s.m.registry == Reg(s.d) && NotGone(Reg(s.d).entries, s.h);
      hide SystemInv, Generations, Keys;
      var es := s.m.registry.entries;
      var found := Find(es, x.node, x.generation, BINDING_CAPACITY).value;
      var next := Activated(Superseding(es, x.node, -1), found);
      hide Superseding;
      SameCredentialsOf(es, next);
      InSets(es, x);
      assert ws == [SaveRegistry(s.m.registry.(entries := next, revision := s.m.registry.revision + 1))];
    }
  }

  lemma SameCredentialsOf(a: Entries, b: Entries)
    requires forall i | 0 <= i < BINDING_CAPACITY ::
      a[i].generation == b[i].generation && a[i].key == b[i].key && (a[i].state.Empty? <==> b[i].state.Empty?)
    ensures Generations(a) == Generations(b) && Keys(a) == Keys(b)
  {
    forall g ensures g in Generations(a) <==> g in Generations(b) {
      if g in Generations(a) {
        var i :| 0 <= i < BINDING_CAPACITY && !a[i].state.Empty? && a[i].generation == g;
        assert b[i].generation == g;
      }
    }
    forall k ensures k in Keys(a) <==> k in Keys(b) {
      if k in Keys(a) {
        var i :| 0 <= i < BINDING_CAPACITY && !a[i].state.Empty? && a[i].key == k;
        assert b[i].key == k;
      }
    }
  }

  lemma InSets(es: Entries, x: Credential)
    requires exists i :: 0 <= i < BINDING_CAPACITY && Carries(es[i], x)
    ensures x.generation in Generations(es) && x.key in Keys(es)
  {
  }

  lemma ActivateKeepsAllowed(cfg: Config, s: State, x: Credential, t: State, result: Result)
    requires SystemInv(cfg, s.m, s.d, s.h) && Enrolled(s.m, x) && Allowed(cfg, s.m, s.d, s.h, OpPrepare(x))
    requires Followed(cfg, s, OpActivate(x.node, x.generation), t, result)
    ensures Allowed(cfg, t.m, t.d, t.h, OpPrepare(x))
  {
    hide SystemInv, ActivatePlan, Carrying, Enrolled;
    var op := OpActivate(x.node, x.generation);
    ActivateCarries(cfg, s, x);
    ActivatePlanned(cfg, s, x.node, x.generation);
    var ws := PlanOf(cfg, s.m, s.d, op).writes;
    hide PlanOf;
    if Step(cfg, s, Finished(op), t) {
      StillAllowed(cfg, s, ws, x, t);
    } else {
      var k: nat :| Step(cfg, s, Cut(op, k), t);
      PrefixCarries(s.d, ws, k, x);
      StillAllowed(cfg, s, ws[..k], x, t);
    }
  }

  ghost predicate NoCounterBack(cfg: Config, s: State, t: State)
  {
    cfg.role.Transmitter? ==> forall key, n | Floor(s.d, s.h, key, n) :: Floor(t.d, t.h, key, n)
  }

  // ------------------------------------------------------------------ when nothing goes wrong

  /** The device has the credential, or can take it, and can write its registry twice more. */
  ghost predicate Enrollable(cfg: Config, s: State, x: Credential)
  {
    && s.m.health == Ready && !Unfit(cfg, x) && !Foreign(s, x) && s.m.registry.revision < UINT64_MAX - 1
    && (|| (exists i: nat :: Registered(s, x.node, x.generation, i) && s.m.registry.entries[i].key == x.key
                             && !s.m.registry.entries[i].state.Revoked?)
        || (&& (forall i: nat :: !Registered(s, x.node, x.generation, i)) && !StoreLaws.Barred(cfg, s, x)
            && exists i: nat :: EmptyAt(s, i) || SpentAt(s, i)))
  }

  lemma PrepareSucceeds(cfg: Config, s: State, x: Credential, t: State, result: Result)
    requires SystemInv(cfg, s.m, s.d, s.h) && Enrollable(cfg, s, x) && Faultless(cfg, s, OpPrepare(x), t, result)
    ensures result == Ok && t.m.registry.revision < UINT64_MAX
  {
    hide SystemInv, Faultless, Unfit, Foreign, StoreLaws.Barred, Chosen, EmptyAt, SpentAt;
    PrepareLaw(cfg, s, x, t, result);
  }

  lemma ActivateSucceeds(cfg: Config, s: State, x: Credential, t: State, result: Result)
    requires SystemInv(cfg, s.m, s.d, s.h) && Enrolled(s.m, x) && s.m.registry.revision < UINT64_MAX
    requires Faultless(cfg, s, OpActivate(x.node, x.generation), t, result)
    ensures result == Ok
  {
    hide SystemInv, Faultless;
    var i :| 0 <= i < BINDING_CAPACITY && Carries(s.m.registry.entries[i], x)
             && !s.m.registry.entries[i].state.Revoked?;
    ActivateLaw(cfg, s, x.node, x.generation, t, result, i);
  }

  // ------------------------------------------------------------------ requests

  /** The device may restart before it answers, at any point between two commands. */
  method Restart(link: PersistentStore, line: Line, ghost x: Credential)
    requires link.Valid()
    modifies link, link.records, line
    ensures link.Valid() && line.troubles >= old(line.troubles) && link.records.faults >= old(link.records.faults)
    ensures line.troubles == old(line.troubles) ==>
      link.Now() == old(link.Now()) && link.records.faults == old(link.records.faults)
    ensures old(Enrolled(link.Memory(), x)) ==> Enrolled(link.Memory(), x)
    ensures old(InService(link.Memory(), x)) ==> InService(link.Memory(), x)
    ensures old(link.health == Ready && Barred(link.cfg, link.Memory(), x)) ==>
      link.health == Ready && Barred(link.cfg, link.Memory(), x)
    ensures link.history == old(link.history) && Reg(link.Durable()) == old(Reg(link.Durable()))
    ensures Ret(link.Durable()) == old(Ret(link.Durable()))
    ensures NoCounterBack(link.cfg, old(link.Now()), link.Now())
    ensures link.health == old(link.health) || link.health == Ready
  {
    hide SystemInv, StoreBytes.View, Step, Enrolled, InService, Barred, Floor, Reg, Ret;
    ghost var s := link.Now();
    var well := line.Goes();
    if !well {
      InvOf(link.cfg, s);
      var ok := link.Mount();
      RestartKeeps(link.cfg, s, link.Now(), x);
      if link.cfg.role.Transmitter? {
        RestartKeepsFloors(link.cfg, s, link.Now());
      }
    }
  }

  lemma InvOf(cfg: Config, s: State)
    requires SystemInv(cfg, s.m, s.d, s.h)
    ensures Inv(cfg, s.d, s.h)
  {
  }

  /** What the environment grants of the credential, and every request of the script keeps. */
  ghost predicate MayPrepare(link: PersistentStore, x: Credential)
    requires link.Valid()
    reads link, link.records
  {
    Allowed(link.cfg, link.Memory(), link.Durable(), link.history, OpPrepare(x))
  }

  /** Every request and reply got through, no device restarted and no record write failed. */
  twostate predicate Smooth(link: PersistentStore, line: Line)
    reads link, link.records, line
  {
    line.troubles == old(line.troubles) && link.records.faults == old(link.records.faults)
  }

  /** PREPARE: Ok only when the reply says so; the command may run although its reply is lost. */
  method RequestPrepare(link: PersistentStore, line: Line, x: Credential) returns (ok: bool)
    requires link.Valid() && MayPrepare(link, x)
    modifies link, link.records, line
    ensures line.troubles >= old(line.troubles) && link.records.faults >= old(link.records.faults)
    ensures Smooth(link, line) && old(Enrollable(link.cfg, link.Now(), x)) ==>
      ok && link.registry.revision < UINT64_MAX
    ensures link.Valid() && NoCounterBack(link.cfg, old(link.Now()), link.Now())
    ensures MayPrepare(link, x)
    ensures ok ==> Enrolled(link.Memory(), x)
    ensures old(link.health == Ready && Barred(link.cfg, link.Memory(), x)) ==>
      && !ok && Reg(link.Durable()) == old(Reg(link.Durable())) && Ret(link.Durable()) == old(Ret(link.Durable()))
  {
    hide SystemInv, StoreBytes.View, Step, Enrolled, InService, Barred, Floor, Reg, Ret, Followed, Faultless, Allowed,
      Enrollable;
    ghost var s0 := link.Now();
    Restart(link, line, x);
    RestartAllows(link.cfg, s0, link.Now(), x);
    var arrives := line.Goes();
    if !arrives {
      return false;
    }
    ghost var s := link.Now();
    var result := link.Prepare(x);
    PrepareOkEnrolls(link.cfg, s, x, link.Now(), result);
    PrepareKeepsAllowed(link.cfg, s, x, link.Now(), result);
    if Faultless(link.cfg, s, OpPrepare(x), link.Now(), result) && Enrollable(link.cfg, s, x) {
      PrepareSucceeds(link.cfg, s, x, link.Now(), result);
    }
    if link.cfg.role.Transmitter? {
      CallKeepsFloors(link.cfg, s, OpPrepare(x), link.Now(), result);
    }
    if s.m.health == Ready && Barred(link.cfg, s.m, x) {
      RefusedStays(link.cfg, s, x, link.Now(), result);
    }
    var replied := line.Goes();
    return replied && result == Ok;
  }

  lemma ActivateEffect(cfg: Config, s: State, x: Credential, t: State, result: Result)
    requires SystemInv(cfg, s.m, s.d, s.h) && Followed(cfg, s, OpActivate(x.node, x.generation), t, result)
    ensures result == Ok && Enrolled(s.m, x) ==> InService(t.m, x)
  {
    if result == Ok && Enrolled(s.m, x) {
      hide SystemInv, ActivatePlan, InService, Enrolled;
      FinishedOk(cfg, s, OpActivate(x.node, x.generation), t);
      ActivatePlanned(cfg, s, x.node, x.generation);
      ActivatedMeans(cfg, s, x);
    }
  }

  /** ACTIVATE. */
  method RequestActivate(link: PersistentStore, line: Line, x: Credential) returns (ok: bool)
    requires link.Valid() && MayPrepare(link, x) && Enrolled(link.Memory(), x)
    modifies link, link.records, line
    ensures line.troubles >= old(line.troubles) && link.records.faults >= old(link.records.faults)
    ensures Smooth(link, line) && old(link.registry).revision < UINT64_MAX ==> ok
    ensures link.Valid() && NoCounterBack(link.cfg, old(link.Now()), link.Now())
    ensures MayPrepare(link, x)
    ensures ok ==> InService(link.Memory(), x)
  {
    hide SystemInv, StoreBytes.View, Step, Enrolled, InService, Barred, Floor, Reg, Ret, Followed, Faultless, Allowed,
      Enrollable;
    ghost var s0 := link.Now();
    Restart(link, line, x);
    RestartAllows(link.cfg, s0, link.Now(), x);
    var arrives := line.Goes();
    if !arrives {
      return false;
    }
    ghost var s := link.Now();
    var result := link.Activate(x.node, x.generation);
    ActivateEffect(link.cfg, s, x, link.Now(), result);
    ActivateKeepsAllowed(link.cfg, s, x, link.Now(), result);
    if Faultless(link.cfg, s, OpActivate(x.node, x.generation), link.Now(), result)
       && s.m.registry.revision < UINT64_MAX {
      ActivateSucceeds(link.cfg, s, x, link.Now(), result);
    }
    if link.cfg.role.Transmitter? {
      CallKeepsFloors(link.cfg, s, OpActivate(x.node, x.generation), link.Now(), result);
    }
    var replied := line.Goes();
    return replied && result == Ok;
  }

  predicate Shows(es: Entries, x: Credential, state: Enrollment)
  {
    exists i :: 0 <= i < BINDING_CAPACITY && Holds(es[i], x.node, x.generation) && es[i].state == state
  }

  /** INFO: the enrollment's state, when it has the credential's node and generation. */
  method RequestInfo(link: PersistentStore, line: Line, x: Credential) returns (state: Option<Enrollment>)
    requires link.Valid()
    modifies line
    ensures line.troubles >= old(line.troubles)
    ensures state.Some? ==> link.health == Ready && Shows(link.registry.entries, x, state.value)
    ensures line.troubles == old(line.troubles) && link.health == Ready && Lists(link.Memory(), x) ==> state.Some?
    ensures line.troubles == old(line.troubles) && InService(link.Memory(), x) ==> state == Some(Active)
  {
    hide SystemInv, StoreBytes.View;
    var replied := line.Goes();
    if !replied || link.health != Ready {
      return None;
    }
    var found := link.FindSlot(x.node, x.generation);
    if found.None? {
      return None;
    }
    if InService(link.Memory(), x) {
      ghost var i :| 0 <= i < BINDING_CAPACITY && Carries(link.registry.entries[i], x)
                     && link.registry.entries[i].state.Active?;
      FoundIs(link.cfg, link.Now(), i, found.value, x);
    }
    return Some(link.registry.entries[found.value].state);
  }

  // ------------------------------------------------------------------ the script

  predicate Lists(m: Mem, x: Credential)
  {
    exists i :: 0 <= i < BINDING_CAPACITY && Holds(m.registry.entries[i], x.node, x.generation)
  }

  /** `check_devices` with a transaction: the two intended devices, on its network or on none. */
  method CheckDevices(tx: PersistentStore, rx: PersistentStore, x: Credential) returns (ok: bool)
    requires tx.Valid() && rx.Valid()
    ensures ok <==>
      && tx.cfg.role.Transmitter? && rx.cfg.role.Receiver? && tx.cfg.device == x.node && rx.cfg.device == x.receiver
      && tx.cfg.device != rx.cfg.device && tx.health == Ready && rx.health == Ready
      && (tx.registry.network != 0 ==> SameNetwork(tx.registry, x))
      && (rx.registry.network != 0 ==> SameNetwork(rx.registry, x))
  {
    return
      && tx.health == Ready && rx.health == Ready
      && tx.cfg.role.Transmitter? && rx.cfg.role.Receiver? && tx.cfg.device != rx.cfg.device
      && tx.cfg.device == x.node && rx.cfg.device == x.receiver
      && (tx.registry.network == 0 || SameNetwork(tx.registry, x))
      && (rx.registry.network == 0 || SameNetwork(rx.registry, x));
  }

  /** The two intended devices can take or have the credential, and a resumed run finds what its phase says. */
  ghost predicate Startable(tx: PersistentStore, rx: PersistentStore, file: RecoveryFile, resume: bool)
    reads tx, tx.records, rx, rx.records, file
  {
    && tx.cfg.role.Transmitter? && rx.cfg.role.Receiver?
    && Enrollable(tx.cfg, tx.Now(), file.x) && Enrollable(rx.cfg, rx.Now(), file.x)
    && (resume && Rank(file.phase) >= 1 ==> Lists(rx.Memory(), file.x))
    && (resume && Rank(file.phase) >= 2 ==> Lists(tx.Memory(), file.x))
  }

  /** The checks before anything is asked of a device. */
  method Checked(tx: PersistentStore, rx: PersistentStore, line: Line, file: RecoveryFile, resume: bool)
    returns (ok: bool)
    requires tx.Valid() && rx.Valid()
    modifies line
    ensures line.troubles >= old(line.troubles)
    ensures line.troubles == old(line.troubles) && Startable(tx, rx, file, resume) ==> ok
    ensures resume && Rank(file.phase) >= 1 && !Lists(rx.Memory(), file.x) ==> !ok
    ensures resume && Rank(file.phase) >= 2 && !Lists(tx.Memory(), file.x) ==> !ok
  {
    hide SystemInv, StoreBytes.View;
    var x := file.x;
    ok := CheckDevices(tx, rx, x);
    if !ok {
      return;
    }
    if resume && !file.phase.NewTransaction? {
      var info := RequestInfo(rx, line, x);
      if info.None? {
        return false;
      }
    }
    if resume && Rank(file.phase) >= 2 {
      var info := RequestInfo(tx, line, x);
      if info.None? {
        return false;
      }
    }
  }

  /** The first half: the credential is placed on the receiver, then on the transmitter. */
  method PrepareBoth(tx: PersistentStore, rx: PersistentStore, line: Line, file: RecoveryFile) returns (ok: bool)
    requires tx != rx && tx.records != rx.records && tx.Valid() && rx.Valid()
    requires MayPrepare(tx, file.x) && MayPrepare(rx, file.x)
    modifies tx, tx.records, rx, rx.records, line, file
    ensures tx.Valid() && rx.Valid() && MayPrepare(tx, file.x) && MayPrepare(rx, file.x)
    ensures line.troubles >= old(line.troubles) && file.interrupted >= old(file.interrupted)
    ensures tx.records.faults >= old(tx.records.faults) && rx.records.faults >= old(rx.records.faults)
    ensures ok ==> Enrolled(tx.Memory(), file.x) && Enrolled(rx.Memory(), file.x)
    ensures Smooth(tx, line) && Smooth(rx, line) && file.interrupted == old(file.interrupted) ==>
      old(Enrollable(tx.cfg, tx.Now(), file.x) && Enrollable(rx.cfg, rx.Now(), file.x)) ==>
      ok && tx.registry.revision < UINT64_MAX && rx.registry.revision < UINT64_MAX
    ensures Rank(file.phase) >= Rank(old(file.phase))
    ensures NoCounterBack(tx.cfg, old(tx.Now()), tx.Now()) && NoCounterBack(rx.cfg, old(rx.Now()), rx.Now())
    ensures old(rx.health == Ready && Barred(rx.cfg, rx.Memory(), file.x)) ==>
      !ok && Reg(rx.Durable()) == old(Reg(rx.Durable())) && tx.Now() == old(tx.Now())
    ensures old(tx.health == Ready && Barred(tx.cfg, tx.Memory(), file.x)) ==>
      !ok && Reg(tx.Durable()) == old(Reg(tx.Durable()))
  {
    hide SystemInv, StoreBytes.View, Allowed, Enrolled, Barred, Floor, Reg, Ret, Enrollable;
    var x := file.x;
    ok := RequestPrepare(rx, line, x);
    if !ok {
      return;
    }
    ok := file.Advance(ReceiverPrepared);
    if !ok {
      return;
    }
    ok := RequestPrepare(tx, line, x);
    if !ok {
      return;
    }
    ok := file.Advance(BothPrepared);
  }

  /**
   * One run of the script, new or resumed. When it completes, both devices have the original
   * network, generation and key active, and it completes when nothing goes wrong and both
   * devices can take the credential. It never revives a barred credential, restores one a
   * device has lost, moves the phase back or lets a reserved counter go back.
   */
  method Enroll(tx: PersistentStore, rx: PersistentStore, line: Line, file: RecoveryFile, resume: bool)
    returns (ok: bool)
    requires tx != rx && tx.records != rx.records && tx.Valid() && rx.Valid()
    requires MayPrepare(tx, file.x) && MayPrepare(rx, file.x)
    requires !resume ==> file.phase.NewTransaction?
    modifies tx, tx.records, rx, rx.records, line, file
    ensures tx.Valid() && rx.Valid() && MayPrepare(tx, file.x) && MayPrepare(rx, file.x)
    ensures ok ==> InService(tx.Memory(), file.x) && InService(rx.Memory(), file.x) && file.phase.Configured?
    ensures Smooth(tx, line) && Smooth(rx, line) && file.interrupted == old(file.interrupted) ==>
      old(Startable(tx, rx, file, resume)) ==> ok
    ensures Rank(file.phase) >= Rank(old(file.phase))
    ensures NoCounterBack(tx.cfg, old(tx.Now()), tx.Now()) && NoCounterBack(rx.cfg, old(rx.Now()), rx.Now())
    ensures old(rx.health == Ready && Barred(rx.cfg, rx.Memory(), file.x)) ==>
      !ok && Reg(rx.Durable()) == old(Reg(rx.Durable())) && tx.Now() == old(tx.Now())
    ensures old(tx.health == Ready && Barred(tx.cfg, tx.Memory(), file.x)) ==>
      !ok && Reg(tx.Durable()) == old(Reg(tx.Durable()))
    ensures old(resume && !file.phase.NewTransaction? && !Lists(rx.Memory(), file.x)) ==>
      !ok && rx.Now() == old(rx.Now()) && tx.Now() == old(tx.Now())
    ensures old(resume && Rank(file.phase) >= 2 && !Lists(tx.Memory(), file.x)) ==>
      !ok && rx.Now() == old(rx.Now()) && tx.Now() == old(tx.Now())
  {
    hide SystemInv, StoreBytes.View, Allowed, Enrolled, InService, Barred, Floor, Reg, Ret, Enrollable, Lists;
    ok := Checked(tx, rx, line, file, resume);
    if !ok {
      return;
    }
    ok := PrepareBoth(tx, rx, line, file);
    if !ok {
      return;
    }
    ok := ActivateBoth(tx, rx, line, file);
  }

  /** The second half: the receiver first, then the transmitter. */
  method ActivateBoth(tx: PersistentStore, rx: PersistentStore, line: Line, file: RecoveryFile) returns (ok: bool)
    requires tx != rx && tx.records != rx.records && tx.Valid() && rx.Valid()
    requires Enrolled(tx.Memory(), file.x) && Enrolled(rx.Memory(), file.x)
    requires MayPrepare(tx, file.x) && MayPrepare(rx, file.x)
    modifies tx, tx.records, rx, rx.records, line, file
    ensures tx.Valid() && rx.Valid() && MayPrepare(tx, file.x) && MayPrepare(rx, file.x)
    ensures ok ==> InService(tx.Memory(), file.x) && InService(rx.Memory(), file.x) && file.phase.Configured?
    ensures line.troubles >= old(line.troubles) && file.interrupted >= old(file.interrupted)
    ensures tx.records.faults >= old(tx.records.faults) && rx.records.faults >= old(rx.records.faults)
    ensures Smooth(tx, line) && Smooth(rx, line) && file.interrupted == old(file.interrupted) ==>
      old(tx.registry).revision < UINT64_MAX && old(rx.registry).revision < UINT64_MAX ==> ok
    ensures Rank(file.phase) >= Rank(old(file.phase))
    ensures NoCounterBack(tx.cfg, old(tx.Now()), tx.Now()) && NoCounterBack(rx.cfg, old(rx.Now()), rx.Now())
  {
    hide SystemInv, StoreBytes.View, Allowed, Enrolled, InService, Floor;
    var x := file.x;
    ok := RequestActivate(rx, line, x);
    if !ok {
      return;
    }
    var info := RequestInfo(rx, line, x);
    if info != Some(Active) {
      return false;
    }
    ok := file.Advance(ReceiverActive);
    if !ok {
      return;
    }
    ok := RequestActivate(tx, line, x);
    if !ok {
      return;
    }
    info := RequestInfo(tx, line, x);
    if info != Some(Active) {
      return false;
    }
    ok := file.Advance(Configured);
  }
}
