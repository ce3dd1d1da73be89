// Runs from a device that never stored anything to the two stores that do not mount: one that
// committed a v1 frame with a power command, and one that enrolled a forgotten credential again.
module StoreLimitRuns {
  import opened Protocol
  import opened Codec
  import opened Records
  import opened Store
  import opened StoreInvariant
  import opened StoreSafety
  import opened StoreOps
  import opened StoreRuns
  import opened StoreLimits

  const BLANK := Disk(None, None, None, map[], map[], None)

  ghost function NewState(cfg: Config): State { State(LoadDisk(cfg, BLANK), BLANK, NO_HISTORY) }

  ghost function After(cfg: Config, s: State, op: Op): State
  {
    var p := PlanOf(cfg, s.m, s.d, op);
    State(p.after, ApplyAll(s.d, p.writes), TrackAll(s.h, s.d, p.writes))
  }

  ghost predicate Healthy(cfg: Config, s: State) { SystemInv(cfg, s.m, s.d, s.h) && s.m.health == Ready }

  /** A healthy store with nothing enrolled. */
  ghost predicate Bare(cfg: Config, s: State)
  {
    Healthy(cfg, s) && s.m.registry == NO_REGISTRY.(revision := s.m.registry.revision)
  }

  /** A healthy store with one enrollment, in the first slot. */
  ghost predicate Single(cfg: Config, s: State, x: Credential, state: Enrollment)
  {
    && Healthy(cfg, s) && !state.Empty?
    && s.m.registry == WithOne(s.m.registry.revision, x, state)
  }

  function BindingFor(x: Credential): Binding { Binding(x.network, x.node, x.key, true) }

  // ------------------------------------------------------------------ single calls

  /** A call that finished is a step, and keeps the store's rules. */
  lemma Finishes(cfg: Config, s: State, op: Op)
    requires SystemInv(cfg, s.m, s.d, s.h) && Allowed(cfg, s.m, s.d, s.h, op)
    ensures
      var t := After(cfg, s, op);
      Step(cfg, s, Finished(op), t) && SystemInv(cfg, t.m, t.d, t.h)
  {
    hide SystemInv, Allowed, PlanOf;
    StepKeeps(cfg, s, Finished(op), After(cfg, s, op));
  }

  lemma {:induction false} ZeroIsEmpty(es: Entries, n: nat)
    requires 0 < n <= BINDING_CAPACITY && es[0].state.Empty?
    ensures FirstEmpty(es, n) == Some(0)
  {
    if n > 1 {
      ZeroIsEmpty(es, n - 1);
    }
  }

  lemma OneWrite(cfg: Config, s: State, op: Op, w: Write, after: Mem)
    requires PlanOf(cfg, s.m, s.d, op) == Plan([w], Ok, after)
    ensures After(cfg, s, op) == State(after, Apply(s.d, w), Track(s.h, s.d, w))
  {
    hide PlanOf, Track, Apply;
    assert [w][0] == w && [w][1..] == [];
    assert TrackAll(s.h, s.d, [w]) == TrackAll(Track(s.h, s.d, w), Apply(s.d, w), []);
    ApplyOne(s.d, w);
  }

  /** A registry write after which the same credentials are enrolled forgets none. */
  lemma NoneGone(h: History, d: Disk, r: Registry)
    requires Generations(Reg(d).entries) <= Generations(r.entries) && Keys(Reg(d).entries) <= Keys(r.entries)
    ensures Track(h, d, SaveRegistry(r)) == h
  {
    hide Generations, Keys;
    assert Generations(Reg(d).entries) - Generations(r.entries) == {} && Keys(Reg(d).entries) - Keys(r.entries) == {};
  }

  function WithOne(revision: u64, x: Credential, state: Enrollment): Registry
  {
    Registry(revision, x.network, x.receiver, x.profile, NoEntries()[0 := Entry(state, x.node, x.generation, 0, x.key)])
  }

  /** A credential that neither the retired list nor the history knows enrolls in the first slot. */
  lemma Enrolls(cfg: Config, s: State, x: Credential)
    requires Bare(cfg, s) && WellFormed(cfg, x) && s.m.registry.revision < UINT64_MAX
    requires !IsRetired(s.m.retired, x.generation, cfg.c.fingerprint(x.key))
    requires x.generation !in s.h.goneGenerations && x.key !in s.h.goneKeys
    ensures
      var t := After(cfg, s, OpPrepare(x));
      && Step(cfg, s, Finished(OpPrepare(x)), t) && Single(cfg, t, x, Prepared)
      && t.h == s.h && t.d.receipts == s.d.receipts && t.m.receipts[0] == NO_RECEIPT_RECORD
      && t.m == s.m.(registry := t.m.registry, receipts := t.m.receipts)
      && t.m.registry.revision == s.m.registry.revision + 1
  {
    hide SystemInv, WellFormed, IsRetired, Step, PlanOf, Inv;
    var r := WithOne(s.m.registry.revision + 1, x, Prepared);
    ReadyIsDisk(cfg, s.m, s.d, s.h);
    EnrollPlan(cfg, s.m, s.d, x);
    Finishes(cfg, s, OpPrepare(x));
    OneWrite(cfg, s, OpPrepare(x), SaveRegistry(r),
             s.m.(receipts := s.m.receipts[0 := NO_RECEIPT_RECORD], registry := r));
    assert Generations(Reg(s.d).entries) == {} && Keys(Reg(s.d).entries) == {};
    NoneGone(s.h, s.d, r);
    hide Generations, Keys, Track;
  }

  lemma EnrollPlan(cfg: Config, m: Mem, d: Disk, x: Credential)
    requires m.health == Ready && m.registry == NO_REGISTRY.(revision := m.registry.revision)
    requires WellFormed(cfg, x) && m.registry.revision < UINT64_MAX
    requires !IsRetired(m.retired, x.generation, cfg.c.fingerprint(x.key))
    ensures
      var r := WithOne(m.registry.revision + 1, x, Prepared);
      PlanOf(cfg, m, d, OpPrepare(x))
        == Plan([SaveRegistry(r)], Ok, m.(receipts := m.receipts[0 := NO_RECEIPT_RECORD], registry := r))
  {
    hide WellFormed, IsRetired;
    ZeroIsEmpty(m.registry.entries, BINDING_CAPACITY);
    assert Find(m.registry.entries, x.node, x.generation, BINDING_CAPACITY).None?;
    assert [] + [SaveRegistry(WithOne(m.registry.revision + 1, x, Prepared))]
        == [SaveRegistry(WithOne(m.registry.revision + 1, x, Prepared))];
  }

  lemma Activates(cfg: Config, s: State, x: Credential)
    requires Single(cfg, s, x, Prepared) && s.m.registry.revision < UINT64_MAX
    ensures
      var op := OpActivate(x.node, x.generation);
      var t := After(cfg, s, op);
      && Step(cfg, s, Finished(op), t) && Single(cfg, t, x, Active)
      && t.h == s.h && t.d.receipts == s.d.receipts && t.m == s.m.(registry := t.m.registry)
      && t.m.registry.revision == s.m.registry.revision + 1
  {
    hide SystemInv, Step, PlanOf, Inv;
    var op, r := OpActivate(x.node, x.generation), WithOne(s.m.registry.revision + 1, x, Active);
    ReadyIsDisk(cfg, s.m, s.d, s.h);
    ActivatePlan0(cfg, s.m, s.d, x);
    Finishes(cfg, s, op);
    OneWrite(cfg, s, op, SaveRegistry(r), s.m.(registry := r));
    SameSets(s.m.registry.entries, r.entries);
    assert forall i | 0 <= i < BINDING_CAPACITY ::
      s.m.registry.entries[i].generation == r.entries[i].generation && s.m.registry.entries[i].key == r.entries[i].key;
    NoneGone(s.h, s.d, r);
    hide Generations, Keys, Track;
  }

  lemma ActivatePlan0(cfg: Config, m: Mem, d: Disk, x: Credential)
    requires m.health == Ready && m.registry == WithOne(m.registry.revision, x, Prepared)
      && m.registry.revision < UINT64_MAX
    ensures
      var r := WithOne(m.registry.revision + 1, x, Active);
      PlanOf(cfg, m, d, OpActivate(x.node, x.generation)) == Plan([SaveRegistry(r)], Ok, m.(registry := r))
  {
    var es, r := m.registry.entries, WithOne(m.registry.revision + 1, x, Active);
    assert Holds(es[0], x.node, x.generation);
    assert Find(es, x.node, x.generation, BINDING_CAPACITY) == Some(0);
    assert Activated(Superseding(es, x.node, -1), 0) == r.entries;
    assert [] + [SaveRegistry(r)] == [SaveRegistry(r)];
  }

  /** The first sample of the enrolled credential is committed in two writes. */
  lemma Commits(cfg: Config, s: State, x: Credential, receipt: Receipt)
    requires Single(cfg, s, x, Active) && cfg.role.Receiver? && s.m.receipts[0].counter == 0
      && Queued(s.m) < QUEUE_CAPACITY
    requires Acceptable(cfg.c, BindingFor(x), 0, receipt)
    ensures CommitPlan(cfg, s.m, s.d, BindingFor(x), 0, receipt) == AcceptPlan(s.m, [], 0, BindingFor(x), receipt)
    ensures
      var p := AcceptPlan(s.m, [], 0, BindingFor(x), receipt);
      && p.result == Ok && |p.writes| == 2 && p.writes[0].SaveQueue?
      && p.writes[1].SaveReceipt? && p.writes[1].slot == 0 && p.writes[1].receipt.generation == x.generation
      && p.after.registry == s.m.registry && p.after.retired == s.m.retired && p.after.health == Ready
  {
    hide SystemInv, Acceptable;
    var es, b := s.m.registry.entries, BindingFor(x);
    assert Matches(es[0], b);
    assert Authorized(s.m, b) == Some(0);
    assert Superseding(es, b.node, 0) == es;
  }

  lemma {:induction false} ReceiptsStay(d: Disk, ws: seq<Write>)
    requires forall i | 0 <= i < |ws| :: !ws[i].SaveReceipt?
    ensures ApplyAll(d, ws).receipts == d.receipts
    decreases ws
  {
    if ws != [] {
      ReceiptsStay(Apply(d, ws[0]), ws[1..]);
    }
  }

  ghost predicate Within(es: Entries, gs: set<u64>, ks: set<Key>) { Generations(es) <= gs && Keys(es) <= ks }

  /** Only credentials that were enrolled at some point can be gone. */
  lemma {:induction false} GoneWithin(h: History, d: Disk, ws: seq<Write>, gs: set<u64>, ks: set<Key>)
    requires Within(Reg(d).entries, gs, ks)
    requires forall i | 0 <= i < |ws| && ws[i].SaveRegistry? :: Within(ws[i].registry.entries, gs, ks)
    ensures TrackAll(h, d, ws).goneGenerations <= h.goneGenerations + gs
      && TrackAll(h, d, ws).goneKeys <= h.goneKeys + ks
    decreases ws
  {
    if ws != [] {
      hide Generations, Keys;
      GoneWithin(Track(h, d, ws[0]), Apply(d, ws[0]), ws[1..], gs, ks);
    }
  }

  lemma {:induction false} RetireAlone(c: Crypto, l: RetiredList, es: Entries, n: nat)
    requires 0 < n <= BINDING_CAPACITY && !es[0].state.Empty? && forall i | 1 <= i < n :: es[i].state.Empty?
    ensures RetireAll(c, l, es, n) == RetireOnce(c, l, es[0])
  {
    hide RetireOnce;
    if n > 1 {
      RetireAlone(c, l, es, n - 1);
    } else {
      assert RetireAll(c, l, es, 0) == l;
    }
  }

  function WipingPlan(c: Crypto, m: Mem, x: Credential, state: Enrollment): Plan
    requires m.registry.revision <= UINT64_MAX - 2
  {
    var l := RetireOnce(c, m.retired, Entry(state, x.node, x.generation, 0, x.key));
    var revoked, none := WithOne(m.registry.revision + 1, x, Revoked),
      NO_REGISTRY.(revision := m.registry.revision + 2);
    Plan([SaveRegistry(revoked), SaveRetired(l)] + (if Queued(m) != 0 then [SaveHead(m.tail)]
                                                    else []) + [SaveRegistry(none)],
         Ok, m.(registry := none, retired := l, head := m.tail, receipts := NoReceipts(), queuedBySlot := NoCounts()))
  }

  lemma WipePlan(cfg: Config, m: Mem, d: Disk, x: Credential, state: Enrollment)
    requires m.health == Ready && m.registry == WithOne(m.registry.revision, x, state) && !state.Empty?
    requires m.registry.revision <= UINT64_MAX - 2
    ensures PlanOf(cfg, m, d, OpReset(true)) == WipingPlan(cfg.c, m, x, state)
  {
    var es := m.registry.entries;
    RetireAlone(cfg.c, m.retired, es, BINDING_CAPACITY);
    var revoked := WithOne(m.registry.revision + 1, x, Revoked);
    assert AllRevoked(es) == revoked.entries;
    hide RetireAll, RetireOnce;
    var l := RetireOnce(cfg.c, m.retired, es[0]);
    assert [] + [SaveRegistry(revoked)] == [SaveRegistry(revoked)];
    assert [SaveRegistry(revoked)] + [SaveRetired(l)] == [SaveRegistry(revoked), SaveRetired(l)];
  }

  /** A reset retires the only credential, and leaves its receipt where it was. */
  lemma Wipes(cfg: Config, s: State, x: Credential, state: Enrollment)
    requires Single(cfg, s, x, state) && s.m.registry.revision <= UINT64_MAX - 2
    ensures
      var t := After(cfg, s, OpReset(true));
      && Step(cfg, s, Finished(OpReset(true)), t) && Bare(cfg, t) && Queued(t.m) == 0
      && t.m.registry.revision == s.m.registry.revision + 2
      && t.m.retired == RetireOnce(cfg.c, s.m.retired, Entry(state, x.node, x.generation, 0, x.key))
      && t.d.receipts == s.d.receipts
      && t.h.goneGenerations <= s.h.goneGenerations + {x.generation} && t.h.goneKeys <= s.h.goneKeys + {x.key}
  {
    hide SystemInv, Step, PlanOf, Inv, RetireOnce, ApplyAll, TrackAll;
    ReadyIsDisk(cfg, s.m, s.d, s.h);
    WipePlan(cfg, s.m, s.d, x, state);
    Finishes(cfg, s, OpReset(true));
    var p := WipingPlan(cfg.c, s.m, x, state);
    ReceiptsStay(s.d, p.writes);
    forall i | 0 <= i < |p.writes| && p.writes[i].SaveRegistry? ensures Within(p.writes[i].registry.entries,
        {x.generation}, {x.key}) {
      assert p.writes[i].registry.entries == NoEntries()
        || p.writes[i].registry.entries == WithOne(0, x, Revoked).entries;
    }
    GoneWithin(s.h, s.d, p.writes, {x.generation}, {x.key});
  }

  // ------------------------------------------------------------------ a v1 frame with a power command

  lemma BlankIsBare(cfg: Config)
    requires cfg.device != 0
    ensures Bare(cfg, NewState(cfg)) && NewState(cfg).m.registry.revision == 0
    ensures NewState(cfg).m.retired == [] && Queued(NewState(cfg).m) == 0
  {
    BlankIsSafe(cfg);
    Mounts(cfg, BLANK, NO_HISTORY);
    hide LoadDisk, Inv;
  }

  lemma Extends(cfg: Config, ss: seq<State>, es: seq<Event>, e: Event, t: State)
    requires Run(cfg, ss, es) && Step(cfg, ss[|es|], e, t)
    ensures Run(cfg, ss + [t], es + [e])
  {
    hide Step;
  }

  function FirstSample(c: Crypto, x: Credential, m: Message, power: i8): Receipt
    requires m.data.count <= MAX_READINGS
  {
    Receipt(m.counter, SealFrame(c, BindingFor(x), m), UNKNOWN_LINK, power)
  }

  lemma SampleAcceptable(cfg: Config, x: Credential, m: Message, power: i8)
    requires WellFormed(cfg, x) && m.kind.DataKind? && Sealable(m)
    ensures m.data.count <= MAX_READINGS
    ensures
      var r := FirstSample(cfg.c, x, m, power);
      Acceptable(cfg.c, BindingFor(x), 0, r) && FrameVersion(r.last) == m.version
  {
    SealedHeader(cfg.c, BindingFor(x), m);
    OpenSeal(cfg.c, BindingFor(x), m);
    hide Open, SealFrame;
  }

  /** Enrolling and activating a credential on a device that never stored anything. */
  lemma Starts(cfg: Config, x: Credential) returns (ss: seq<State>, es: seq<Event>)
    requires WellFormed(cfg, x)
    ensures Run(cfg, ss, es) && |es| == 2 && |ss| == 3 && ss[0] == NewState(cfg)
    ensures Single(cfg, ss[2], x, Active) && ss[2].h == NO_HISTORY && ss[2].m.receipts[0] == NO_RECEIPT_RECORD
    ensures ss[2].m.registry.revision == 2 && ss[2].m.retired == [] && Queued(ss[2].m) == 0
  {
    assert cfg.device != 0;
    hide SystemInv, Step, WellFormed, Inv, LoadDisk;
    BlankIsBare(cfg);
    var s := NewState(cfg);
    Enrolls(cfg, s, x);
    var t := After(cfg, s, OpPrepare(x));
    Activates(cfg, t, x);
    var u := After(cfg, t, OpActivate(x.node, x.generation));
    hide After;
    ss, es := [s, t, u], [Finished(OpPrepare(x)), Finished(OpActivate(x.node, x.generation))];
  }

  /**
   * Any receiver that enrolled a node and commits the node's first v1 sample with a power
   * command is told Ok, and no longer mounts.
   */
  lemma V1PowerCommit(cfg: Config, x: Credential, m: Message, power: i8) returns (ss: seq<State>, es: seq<Event>)
    requires cfg.role.Receiver? && WellFormed(cfg, x)
    requires m.kind.DataKind? && m.version == WIRE_V1 && Sealable(m) && power != KEEP_POWER
    ensures Run(cfg, ss, es) && |ss| == |es| + 1 && ss[0] == NewState(cfg) && m.data.count <= MAX_READINGS
    ensures
      var t := ss[|es|];
      var p := CommitPlan(cfg, t.m, t.d, BindingFor(x), 0, FirstSample(cfg.c, x, m, power));
      Healthy(cfg, t) && p.result == Ok && LoadDisk(cfg, ApplyAll(t.d, p.writes)).health != Ready
  {
    hide SystemInv, Run, CommitPlan, LoadDisk, Acceptable, FrameVersion, SealFrame, Sealable;
    ss, es := Starts(cfg, x);
    var t := ss[2];
    SampleAcceptable(cfg, x, m, power);
    var r := FirstSample(cfg.c, x, m, power);
    Commits(cfg, t, x, r);
    CommitMountsIff(cfg, t.m, t.d, t.h, BindingFor(x), 0, r);
  }

  // ------------------------------------------------------------------ a forgotten credential

  function Mark(c: Crypto, x: Credential): Retired { Retired(x.generation, c.fingerprint(x.key)) }

  function Marks(c: Crypto, xs: seq<Credential>): seq<Retired> { seq(|xs|, i requires 0 <= i < |xs| => Mark(c, xs[i])) }

  /** Credentials no two of which share a generation, or the mark of a key. */
  ghost predicate Unrelated(c: Crypto, xs: seq<Credential>)
  {
    forall i, j | 0 <= i < j < |xs| ::
      xs[i].generation != xs[j].generation && c.fingerprint(xs[i].key) != c.fingerprint(xs[j].key)
  }

  /** The retired list holds the last so many of the credentials retired in order. */
  function LastOf(c: Crypto, xs: seq<Credential>, n: nat): RetiredList
    requires n <= |xs|
  {
    Marks(c, xs)[if n <= RETIRED_CAPACITY then 0 else n - RETIRED_CAPACITY..n]
  }

  /** The first `n` credentials were enrolled and wiped in turn; the first one's receipt is still in slot 0. */
  ghost predicate Cycled(cfg: Config, xs: seq<Credential>, s: State, n: nat)
    requires 0 < n <= |xs|
  {
    && Bare(cfg, s) && Queued(s.m) == 0 && s.m.registry.revision <= 4 + 3 * n
    && s.m.retired == LastOf(cfg.c, xs, n)
    && 0 in s.d.receipts && s.d.receipts[0].generation == xs[0].generation
    && forall k | n <= k < |xs| :: xs[k].generation !in s.h.goneGenerations && xs[k].key !in s.h.goneKeys
  }

  lemma NotYetRetired(c: Crypto, xs: seq<Credential>, n: nat)
    requires Unrelated(c, xs) && n < |xs|
    ensures !IsRetired(LastOf(c, xs, n), xs[n].generation, c.fingerprint(xs[n].key))
  {
    var l := LastOf(c, xs, n);
    var lo := if n <= RETIRED_CAPACITY then 0 else n - RETIRED_CAPACITY;
    forall i | 0 <= i < |l| ensures l[i] == Mark(c, xs[lo + i]) {
    }
  }

  lemma OneMoreRetired(c: Crypto, xs: seq<Credential>, n: nat, state: Enrollment)
    requires Unrelated(c, xs) && n < |xs|
    ensures RetireOnce(c, LastOf(c, xs, n), Entry(state, xs[n].node, xs[n].generation, 0, xs[n].key))
      == LastOf(c, xs, n + 1)
  {
    NotYetRetired(c, xs, n);
    hide IsRetired;
    var marks := Marks(c, xs);
    assert marks[n] == Mark(c, xs[n]);
  }

  /** Enrolling one more credential and wiping it again. */
  lemma Cycles(cfg: Config, xs: seq<Credential>, s: State, n: nat) returns (t: State, u: State)
    requires 0 < n < |xs| <= 1000 && Cycled(cfg, xs, s, n) && Unrelated(cfg.c, xs) && WellFormed(cfg, xs[n])
    ensures Step(cfg, s, Finished(OpPrepare(xs[n])), t) && Step(cfg, t, Finished(OpReset(true)), u)
    ensures Cycled(cfg, xs, u, n + 1)
  {
    hide SystemInv, Step, WellFormed, IsRetired, RetireOnce, LastOf, Inv;
    NotYetRetired(cfg.c, xs, n);
    Enrolls(cfg, s, xs[n]);
    t := After(cfg, s, OpPrepare(xs[n]));
    Wipes(cfg, t, xs[n], Prepared);
    u := After(cfg, t, OpReset(true));
    hide After;
    OneMoreRetired(cfg.c, xs, n, Prepared);
    forall k | n + 1 <= k < |xs| ensures xs[k].generation !in u.h.goneGenerations && xs[k].key !in u.h.goneKeys {
      assert xs[n].generation != xs[k].generation && xs[n].key != xs[k].key;
    }
  }

  /** The first credential is accepted from, wiped, and its receipt stays in slot 0. */
  lemma FirstCycle(cfg: Config, xs: seq<Credential>, m: Message) returns (ss: seq<State>, es: seq<Event>)
    requires cfg.role.Receiver? && 0 < |xs| <= 1000 && Unrelated(cfg.c, xs) && WellFormed(cfg, xs[0])
    requires m.kind.DataKind? && Sealable(m)
    ensures Run(cfg, ss, es) && |ss| == |es| + 1 && ss[0] == NewState(cfg) && Cycled(cfg, xs, ss[|es|], 1)
  {
    hide SystemInv, Run, Step, Acceptable, FrameVersion, SealFrame, Sealable, WellFormed, RetireOnce, LastOf, Inv;
    var x := xs[0];
    var b := BindingFor(x);
    ss, es := Starts(cfg, x);
    var s := ss[2];
    SampleAcceptable(cfg, x, m, KEEP_POWER);
    var r := FirstSample(cfg.c, x, m, KEEP_POWER);
    var op := OpCommit(b, 0, r);
    var t := Accepts(cfg, s, x, r);
    Wipes(cfg, t, x, Active);
    var u := After(cfg, t, OpReset(true));
    hide After;
    Extends(cfg, ss, es, Finished(op), t);
    Extends(cfg, ss + [t], es + [Finished(op)], Finished(OpReset(true)), u);
    ss, es := ss + [t] + [u], es + [Finished(op)] + [Finished(OpReset(true))];
    OneMoreRetired(cfg.c, xs, 0, Active);
    NoneRetired(cfg.c, xs);
    forall k | 1 <= k < |xs| ensures xs[k].generation !in u.h.goneGenerations && xs[k].key !in u.h.goneKeys {
      assert xs[0].generation != xs[k].generation && xs[0].key != xs[k].key;
    }
  }

  lemma NoneRetired(c: Crypto, xs: seq<Credential>)
    ensures LastOf(c, xs, 0) == []
  {
  }

  /** Committing the first sample. */
  lemma Accepts(cfg: Config, s: State, x: Credential, r: Receipt) returns (t: State)
    requires Single(cfg, s, x, Active) && cfg.role.Receiver? && s.m.receipts[0].counter == 0 && Queued(s.m) == 0
    requires Acceptable(cfg.c, BindingFor(x), 0, r) && r.ackPower == KEEP_POWER && |s.h.log| < UINT64_MAX
    ensures Step(cfg, s, Finished(OpCommit(BindingFor(x), 0, r)), t) && Single(cfg, t, x, Active)
    ensures 0 in t.d.receipts && t.d.receipts[0].generation == x.generation
    ensures t.m.retired == s.m.retired && t.m.registry == s.m.registry
    ensures t.h.goneGenerations == s.h.goneGenerations && t.h.goneKeys == s.h.goneKeys
  {
    hide SystemInv, Acceptable, CommitPlan, Step, Inv, AcceptPlan;
    var b := BindingFor(x);
    var op := OpCommit(b, 0, r);
    t := After(cfg, s, op);
    Commits(cfg, s, x, r);
    Finishes(cfg, s, op);
    var ws := AcceptPlan(s.m, [], 0, b, r).writes;
    assert ws == [ws[0], ws[1]];
    ApplyTwo(s.d, ws[0], ws[1]);
    assert ws[1..] == [ws[1]] && ws[1..][1..] == [];
    assert TrackAll(s.h, s.d, ws) == TrackAll(Track(s.h, s.d, ws[0]), Apply(s.d, ws[0]), ws[1..]);
    assert TrackAll(s.h, s.d, ws) == Track(Track(s.h, s.d, ws[0]), Apply(s.d, ws[0]), ws[1]);
  }

  lemma {:induction false} ManyCycles(cfg: Config, xs: seq<Credential>, m: Message, n: nat)
    returns (ss: seq<State>, es: seq<Event>)
    requires cfg.role.Receiver? && 0 < n <= |xs| <= 1000 && Unrelated(cfg.c, xs)
    requires forall i | 0 <= i < |xs| :: WellFormed(cfg, xs[i])
    requires m.kind.DataKind? && Sealable(m)
    ensures Run(cfg, ss, es) && |ss| == |es| + 1 && ss[0] == NewState(cfg) && Cycled(cfg, xs, ss[|es|], n)
  {
    hide Run, Step, Sealable, WellFormed, Cycled, Unrelated;
    if n == 1 {
      ss, es := FirstCycle(cfg, xs, m);
    } else {
      ss, es := ManyCycles(cfg, xs, m, n - 1);
      var t, u := Cycles(cfg, xs, ss[|es|], n - 1);
      Extends(cfg, ss, es, Finished(OpPrepare(xs[n - 1])), t);
      Extends(cfg, ss + [t], es + [Finished(OpPrepare(xs[n - 1]))], Finished(OpReset(true)), u);
      ss, es := ss + [t] + [u], es + [Finished(OpPrepare(xs[n - 1]))] + [Finished(OpReset(true))];
    }
  }

  /**
   * Once as many other credentials were retired as the list holds, the first one is enrolled
   * again, and the store no longer mounts: its slot still has the receipt of its generation.
   */
  lemma ForgottenReturns(cfg: Config, xs: seq<Credential>, m: Message) returns (ss: seq<State>, es: seq<Event>)
    requires cfg.role.Receiver? && |xs| == RETIRED_CAPACITY + 1 && Unrelated(cfg.c, xs)
    requires forall i | 0 <= i < |xs| :: WellFormed(cfg, xs[i])
    requires m.kind.DataKind? && Sealable(m)
    ensures Run(cfg, ss, es) && |ss| == |es| + 1 && ss[0] == NewState(cfg)
    ensures
      var t := ss[|es|];
      var p := PreparePlan(cfg, t.m, xs[0]);
      && Healthy(cfg, t) && p.result == Ok && p.writes != []
      && LoadDisk(cfg, ApplyAll(t.d, p.writes)).health != Ready
  {
    hide Run, Step, Sealable, WellFormed, SystemInv, LoadDisk, PreparePlan, Welcome;
    ss, es := ManyCycles(cfg, xs, m, |xs|);
    var t, x := ss[|es|], xs[0];
    Forgotten(cfg.c, xs);
    EnrollPlan(cfg, t.m, t.d, x);
    assert PlanOf(cfg, t.m, t.d, OpPrepare(x)) == PreparePlan(cfg, t.m, x);
    PrepareMountsIff(cfg, t.m, t.d, t.h, x);
    SlotZero(t.m);
    assert !Welcome(cfg, t.m, t.d, x, 0) by {
      Unwelcome(cfg, t.m, t.d, x, 0);
    }
  }

  lemma Unwelcome(cfg: Config, m: Mem, d: Disk, x: Credential, slot: nat)
    requires cfg.role.Receiver? && slot < BINDING_CAPACITY && slot in d.receipts
      && d.receipts[slot].generation == x.generation
    ensures !Welcome(cfg, m, d, x, slot)
  {
  }

  lemma SlotZero(m: Mem)
    requires m.registry.entries == NoEntries()
    ensures ChosenSlot(m) == Some(0)
  {
    ZeroIsEmpty(m.registry.entries, BINDING_CAPACITY);
  }

  lemma Forgotten(c: Crypto, xs: seq<Credential>)
    requires Unrelated(c, xs) && |xs| == RETIRED_CAPACITY + 1
    ensures !IsRetired(LastOf(c, xs, |xs|), xs[0].generation, c.fingerprint(xs[0].key))
  {
    var l := LastOf(c, xs, |xs|);
    forall i | 0 <= i < |l| ensures l[i] == Mark(c, xs[i + 1]) {
    }
  }

  // ------------------------------------------------------------------ both, on one receiver

  /** A receiver whose marks are the keys' last bytes. */
  const EXAMPLE_CRYPTO: Primitives := TRIVIAL.(fingerprint := k => k[15])

  const EXAMPLE_DATA := Data(3000, 600, 1, NO_READINGS[0 := Reading(1, 1, 1, 0, 21500)])
  const EXAMPLE_SAMPLE := Message(DataKind, WIRE_V1, 1, EXAMPLE_DATA, ZERO16, KEEP_POWER)

  function ExampleCredential(n: nat): Credential
    requires n < 255
  {
    Credential(1, 1, 2, n + 1, ZERO16[15 := n + 1], 1)
  }

  lemma ExampleFits() returns (cfg: Config, xs: seq<Credential>)
    ensures cfg.role.Receiver? && cfg.c == EXAMPLE_CRYPTO && cfg.device == 1
    ensures |xs| == RETIRED_CAPACITY + 1 && (forall i | 0 <= i < |xs| ::
                                             xs[i] == ExampleCredential(i) && WellFormed(cfg, xs[i]))
    ensures Unrelated(cfg.c, xs) && Sealable(EXAMPLE_SAMPLE)
  {
    assert Ideal(EXAMPLE_CRYPTO);
    cfg := Config(EXAMPLE_CRYPTO, Receiver, 1);
    xs := seq(RETIRED_CAPACITY + 1, i requires 0 <= i < RETIRED_CAPACITY + 1 => ExampleCredential(i));
    forall i | 0 <= i < |xs| ensures WellFormed(cfg, xs[i]) {
      assert xs[i].key[15] == i + 1;
    }
  }

  lemma BothHappen() returns (cfg: Config, s: State, receipt: Receipt, t: State)
    ensures cfg.role.Receiver?
    ensures exists ss, es :: Run(cfg, ss, es) && ss[0] == NewState(cfg) && ss[|es|] == s
    ensures
      var p := CommitPlan(cfg, s.m, s.d, BindingFor(ExampleCredential(0)), 0, receipt);
      && FrameVersion(receipt.last) == WIRE_V1 && receipt.ackPower != KEEP_POWER
      && p.result == Ok && LoadDisk(cfg, ApplyAll(s.d, p.writes)).health != Ready
    ensures exists ss, es :: Run(cfg, ss, es) && ss[0] == NewState(cfg) && ss[|es|] == t
    ensures
      var p := PreparePlan(cfg, t.m, ExampleCredential(0));
      p.result == Ok && LoadDisk(cfg, ApplyAll(t.d, p.writes)).health != Ready
  {
    hide CommitPlan, PreparePlan, LoadDisk, Sealable, WellFormed, Unrelated, Acceptable, FrameVersion, SealFrame, Run,
      SystemInv;
    var xs;
    cfg, xs := ExampleFits();
    var ss, es := V1PowerCommit(cfg, xs[0], EXAMPLE_SAMPLE, 7);
    SampleAcceptable(cfg, xs[0], EXAMPLE_SAMPLE, 7);
    s, receipt := ss[|es|], FirstSample(cfg.c, xs[0], EXAMPLE_SAMPLE, 7);
    var ts, fs := ForgottenReturns(cfg, xs, EXAMPLE_SAMPLE);
    t := ts[|fs|];
  }
}
