// Whole runs of the store: operations that finish, operations cut at a write, and remounts.
module StoreRuns {
  import opened Protocol
  import opened Records
  import opened Store
  import opened StoreInvariant
  import opened StoreSafety
  import opened StoreOps

  /**
   * Finished: every write succeeded. Cut: the first `k` writes are durable and no more, after
   * a power cut or an ambiguous failure (a failed write that landed is the larger `k`).
   * Remount: a restart, or a mount after a failure.
   */
  datatype Event = Finished(op: Op) | Cut(op: Op, k: nat) | Remount

  datatype State = State(m: Mem, d: Disk, h: History)

  /** A mount also erases a stale v1 snapshot; that erase may fail. */
  ghost predicate Mounted(cfg: Config, s: State, t: State)
  {
    && (t.d == s.d || t.d == Apply(s.d, EraseLegacy)) && t.h == s.h
    && t.m == LoadDisk(cfg, s.d).(dropped := s.m.dropped)
  }

  ghost predicate Step(cfg: Config, s: State, e: Event, t: State)
  {
    match e
    case Finished(op) =>
      var p := PlanOf(cfg, s.m, s.d, op);
      Allowed(cfg, s.m, s.d, s.h, op) && t == State(p.after, ApplyAll(s.d, p.writes), TrackAll(s.h, s.d, p.writes))
    case Cut(op, k) =>
      var p := PlanOf(cfg, s.m, s.d, op);
      && Allowed(cfg, s.m, s.d, s.h, op) && k <= |p.writes| && t.m.health != Ready
      && t.d == ApplyAll(s.d, p.writes[..k]) && t.h == TrackAll(s.h, s.d, p.writes[..k])
    case Remount => Mounted(cfg, s, t)
  }

  ghost predicate Run(cfg: Config, ss: seq<State>, es: seq<Event>)
  {
    |ss| == |es| + 1 && forall i | 0 <= i < |es| :: Step(cfg, ss[i], es[i], ss[i + 1])
  }

  lemma EraseKeeps(cfg: Config, d: Disk, h: History)
    requires Inv(cfg, d, h)
    ensures Inv(cfg, Apply(d, EraseLegacy), h)
    ensures LoadDisk(cfg, Apply(d, EraseLegacy)) == LoadDisk(cfg, d)
  {
  }

  lemma StepKeeps(cfg: Config, s: State, e: Event, t: State)
    requires SystemInv(cfg, s.m, s.d, s.h) && Step(cfg, s, e, t)
    ensures SystemInv(cfg, t.m, t.d, t.h)
    ensures e.Remount? ==> t.m.health == Ready
  {
    hide PlanOf, Allowed, Inv, LoadDisk;
    match e
    case Finished(op) =>
      OperationSound(cfg, s.m, s.d, s.h, op);
      SafeEnd(cfg, s.d, s.h, PlanOf(cfg, s.m, s.d, op).writes);
    case Cut(op, k) =>
      OperationSound(cfg, s.m, s.d, s.h, op);
      SafePrefix(cfg, s.d, s.h, PlanOf(cfg, s.m, s.d, op).writes, k);
    case Remount => RemountKeeps(cfg, s, t);
  }

  lemma RemountKeeps(cfg: Config, s: State, t: State)
    requires Inv(cfg, s.d, s.h) && Mounted(cfg, s, t)
    ensures SystemInv(cfg, t.m, t.d, t.h) && t.m.health == Ready
  {
    hide Inv, LoadDisk, Live, CountsOf;
    Mounts(cfg, s.d, s.h);
    Recovers(cfg, s.d, s.h);
    EraseKeeps(cfg, s.d, s.h);
  }

  lemma Recovers(cfg: Config, d: Disk, h: History)
    requires Inv(cfg, d, h)
    ensures cfg.role.Receiver? ==> Head(d) <= |h.log|
    ensures Recovered(cfg, d, h).health == Ready
  {
  }

  /**
   * Mount totality: over every run, cut anywhere, with any write ambiguous, the durable state
   * mounts Ready.
   */
  lemma {:induction false} EveryStateMounts(cfg: Config, ss: seq<State>, es: seq<Event>, n: nat)
    requires Run(cfg, ss, es) && n < |ss| && SystemInv(cfg, ss[0].m, ss[0].d, ss[0].h)
    ensures SystemInv(cfg, ss[n].m, ss[n].d, ss[n].h)
    ensures LoadDisk(cfg, ss[n].d) == Recovered(cfg, ss[n].d, ss[n].h)
    ensures LoadDisk(cfg, ss[n].d).health == Ready
  {
    hide Step, LoadDisk, Inv;
    if n != 0 {
      EveryStateMounts(cfg, ss, es, n - 1);
      assert Step(cfg, ss[n - 1], es[n - 1], ss[n]);
      StepKeeps(cfg, ss[n - 1], es[n - 1], ss[n]);
    }
    Mounts(cfg, ss[n].d, ss[n].h);
    Recovers(cfg, ss[n].d, ss[n].h);
  }

  /** A device that never stored anything satisfies the invariant, with no history. */
  lemma BlankIsSafe(cfg: Config)
    requires cfg.device != 0
    ensures SystemInv(cfg, LoadDisk(cfg, Disk(None, None, None, map[], map[], None)),
                      Disk(None, None, None, map[], map[], None), NO_HISTORY)
  {
    Mounts(cfg, Disk(None, None, None, map[], map[], None), NO_HISTORY);
  }

  /**
   * Queue refinement: a mounted queue is the slice [head, tail) of the accepted samples, each
   * at its own ring record, and the recovered tail is the number of samples ever accepted.
   */
  lemma QueueIsSlice(cfg: Config, m: Mem, d: Disk, h: History)
    requires SystemInv(cfg, m, d, h) && m.health == Ready && cfg.role.Receiver?
    ensures m.tail == |h.log| && m.head <= m.tail <= m.head + QUEUE_CAPACITY
    ensures forall s | m.head <= s < m.tail :: RingHolds(m.registry, d.ring, s, h.log[s])
    ensures forall s, t | m.head <= s < t < m.tail :: s % QUEUE_CAPACITY != t % QUEUE_CAPACITY
  {
    forall s, t | m.head <= s < t < m.tail ensures s % QUEUE_CAPACITY != t % QUEUE_CAPACITY {
      RingApart(s, t);
    }
  }

  // ------------------------------------------------------------------ the log only grows

  lemma {:induction false} TrackGrows(h: History, d: Disk, ws: seq<Write>)
    ensures h.log <= TrackAll(h, d, ws).log
    decreases ws
  {
    if ws != [] {
      TrackGrows(Track(h, d, ws[0]), Apply(d, ws[0]), ws[1..]);
    }
  }

  /** No accepted sample is ever forgotten or reordered. */
  lemma {:induction false} LogGrows(cfg: Config, ss: seq<State>, es: seq<Event>, i: nat, j: nat)
    requires Run(cfg, ss, es) && i <= j < |ss|
    ensures ss[i].h.log <= ss[j].h.log && ss[i].h.origin == ss[j].h.origin
  {
    hide PlanOf, Allowed, ApplyAll, TrackAll, LoadDisk;
    if i < j {
      LogGrows(cfg, ss, es, i, j - 1);
      assert Step(cfg, ss[j - 1], es[j - 1], ss[j]);
      var s, e := ss[j - 1], es[j - 1];
      if e.Finished? {
        TrackGrows(s.h, s.d, PlanOf(cfg, s.m, s.d, e.op).writes);
      } else if e.Cut? {
        TrackGrows(s.h, s.d, PlanOf(cfg, s.m, s.d, e.op).writes[..e.k]);
      }
    }
  }

  /** Each (generation, counter) is accepted at most once, over every run. */
  lemma AcceptedOnce(cfg: Config, ss: seq<State>, es: seq<Event>, n: nat, i: nat, j: nat)
    requires Run(cfg, ss, es) && n < |ss| && SystemInv(cfg, ss[0].m, ss[0].d, ss[0].h) && cfg.role.Receiver?
    requires i < j < |ss[n].h.log| && ss[n].h.origin.base <= j && ss[n].h.log[i].generation == ss[n].h.log[j].generation
    ensures ss[n].h.log[i].counter < ss[n].h.log[j].counter
  {
    EveryStateMounts(cfg, ss, es, n);
  }

  // ------------------------------------------------------------------ conservation

  /** Samples accepted, forwarded and given up by one finished operation. */
  ghost function Accepts(cfg: Config, s: State, e: Event): int
  {
    if e.Finished? && e.op.OpCommit? && PlanOf(cfg, s.m, s.d, e.op).result == Ok then 1 else 0
  }

  ghost function Forwards(cfg: Config, s: State, e: Event): int
  {
    if e.Finished? && e.op.OpForwarded? && PlanOf(cfg, s.m, s.d, e.op).result == Ok then 1 else 0
  }

  ghost function TotalAccepted(cfg: Config, ss: seq<State>, es: seq<Event>, n: nat): int
    requires |ss| == |es| + 1 && n <= |es|
  {
    if n == 0 then 0 else TotalAccepted(cfg, ss, es, n - 1) + Accepts(cfg, ss[n - 1], es[n - 1])
  }

  ghost function TotalForwarded(cfg: Config, ss: seq<State>, es: seq<Event>, n: nat): int
    requires |ss| == |es| + 1 && n <= |es|
  {
    if n == 0 then 0 else TotalForwarded(cfg, ss, es, n - 1) + Forwards(cfg, ss[n - 1], es[n - 1])
  }

  lemma CommitConserves(cfg: Config, m: Mem, d: Disk, b: Binding, expected: u64, receipt: Receipt)
    requires m.health == Ready
    ensures
      var p := CommitPlan(cfg, m, d, b, expected, receipt);
      p.after.health == Ready ==>
        Queued(m) + (if p.result == Ok then 1 else 0) == (p.after.dropped - m.dropped) + Queued(p.after)
  {
    hide Acceptable, FrontHealth;
  }

  lemma OneStepConserves(cfg: Config, s: State, op: Op)
    requires s.m.health == Ready && !op.OpReset?
    ensures
      var p := PlanOf(cfg, s.m, s.d, op);
      p.after.health == Ready ==>
        Queued(s.m) + Accepts(cfg, s, Finished(op))
          == Forwards(cfg, s, Finished(op)) + (p.after.dropped - s.m.dropped) + Queued(p.after)
  {
    if op.OpCommit? {
      CommitConserves(cfg, s.m, s.d, op.b, op.expected, op.receipt);
    }
    hide CommitPlan, FrontHealth, Peek, PeekHealth;
  }

  /** While healthy and without reset: queued + accepted = forwarded + dropped + still queued. */
  lemma {:induction false} Conservation(cfg: Config, ss: seq<State>, es: seq<Event>, n: nat)
    requires Run(cfg, ss, es) && n <= |es|
    requires forall i | 0 <= i <= n :: ss[i].m.health == Ready
    requires forall i | 0 <= i < n :: es[i].Finished? && !es[i].op.OpReset?
    ensures Queued(ss[0].m) + TotalAccepted(cfg, ss, es, n)
         == TotalForwarded(cfg, ss, es, n) + (ss[n].m.dropped - ss[0].m.dropped) + Queued(ss[n].m)
  {
    hide PlanOf, Allowed, Accepts, Forwards, ApplyAll, TrackAll, Mounted, SystemInv;
    if n != 0 {
      Conservation(cfg, ss, es, n - 1);
      assert Step(cfg, ss[n - 1], es[n - 1], ss[n]);
      OneStepConserves(cfg, ss[n - 1], es[n - 1].op);
    }
  }
}
