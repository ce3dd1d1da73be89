// Whole runs of the forwarder with the broker and the store, and two of them in which a sample
// leaves the queue that was not the one acknowledged.
module UplinkRuns {
  import opened Protocol
  import opened Codec
  import opened Records
  import opened Snapshot
  import opened Store
  import opened StoreInvariant
  import opened StoreOps
  import opened StoreRuns
  import StoreFits
  import opened StoreObject
  import opened StoreLimitRuns
  import opened StoreLaws
  import opened Migration
  import opened MigrationRuns
  import opened Uplink
  import opened Clocks

  // ------------------------------------------------------------------ runs

  datatype Setting = Setting(f: Forward, l: Line, s: State)

  datatype Act = Polls(e: Inputs) | Answers(n: nat) | Stores(event: Event) | Pauses | Switches(identity: string)

  ghost predicate Next(cfg: Config, v: Setting, a: Act, w: Setting)
    requires |v.l.meant| == |v.l.acks|
  {
    match a
    case Polls(e) => Polled(cfg, v.f, v.l, v.s, e, w.f, w.l, w.s)
    case Answers(n) => n in v.l.unanswered && n < |v.l.issued| && w == v.(l := Answered(v.l, n))
    case Stores(event) => Step(cfg, v.s, event, w.s) && w == v.(s := w.s)
    case Pauses => w == v.(f := Paused(v.f))
    case Switches(identity) => w == v.(f := Switched(v.f, identity))
  }

  ghost predicate Course(cfg: Config, vs: seq<Setting>, acts: seq<Act>)
  {
    |vs| == |acts| + 1 && forall i | 0 <= i < |acts| ::
      |vs[i].l.meant| == |vs[i].l.acks| && Next(cfg, vs[i], acts[i], vs[i + 1])
  }

  /** The publication in flight is still to be acknowledged, or its acknowledgement to be popped. */
  ghost predicate Pending(f: Forward, l: Line)
  {
    f.state.Waiting? ==> f.attempt in l.unanswered || f.attempt in l.meant
  }

  /** No more samples were removed than publications were acknowledged. */
  ghost predicate SettingInv(cfg: Config, v: Setting)
  {
    && SystemInv(cfg, v.s.m, v.s.d, v.s.h) && cfg.role.Receiver?
    && LineInv(v.l) && InFlight(cfg.c, v.f, v.l, v.s.h) && Pending(v.f, v.l)
    && v.f.forwarded + |v.l.acks| + |v.l.unanswered| <= |v.l.issued|
  }

  lemma NextKeeps(cfg: Config, v: Setting, a: Act, w: Setting)
    requires SettingInv(cfg, v) && Next(cfg, v, a, w)
    ensures SettingInv(cfg, w) && v.s.h.log <= w.s.h.log
  {
    hide SystemInv, Step, SampleOf, LineInv, Polled;
    LineKept(v.l);
    match a
    case Polls(e) => PollKeeps(cfg, v, e, w);
    case Stores(event) =>
      StepKeeps(cfg, v.s, event, w.s);
      LogGrows(cfg, [v.s, w.s], [event], 0, 1);
    case _ =>
  }

  lemma PollKeeps(cfg: Config, v: Setting, e: Inputs, w: Setting)
    requires SettingInv(cfg, v) && Next(cfg, v, Polls(e), w)
    ensures SettingInv(cfg, w) && v.s.h.log <= w.s.h.log
  {
    hide SystemInv, Followed, SampleOf, LineInv, TooEarly, InFlight, Peek;
    Unanswered(v.l);
    PolledKeeps(cfg, v.f, v.l, v.s, e, w.f, w.l, w.s);
    RemovedIff(cfg, v.f, v.l, v.s, e, w.f, w.l, w.s);
    PollKeepsPending(cfg, v, e, w);
    PollKeepsStore(cfg, v, e, w);
  }

  lemma PollKeepsPending(cfg: Config, v: Setting, e: Inputs, w: Setting)
    requires LineInv(v.l) && InFlight(cfg.c, v.f, v.l, v.s.h) && Pending(v.f, v.l)
    requires |v.l.meant| == |v.l.acks| && Next(cfg, v, Polls(e), w)
    ensures Pending(w.f, w.l)
  {
    hide SampleOf, TooEarly, Followed, Peek;
    if v.f.attempt in v.l.meant {
      var k :| 0 <= k < |v.l.meant| && v.l.meant[k] == v.f.attempt;
      assert v.l.acks[k] == v.l.issued[v.f.attempt].id;
    }
  }

  lemma Unanswered(l: Line)
    requires LineInv(l)
    ensures |l.issued| !in l.unanswered && |l.meant| == |l.acks|
  {
  }

  lemma PollKeepsStore(cfg: Config, v: Setting, e: Inputs, w: Setting)
    requires SystemInv(cfg, v.s.m, v.s.d, v.s.h) && |v.l.meant| == |v.l.acks| && Next(cfg, v, Polls(e), w)
    ensures SystemInv(cfg, w.s.m, w.s.d, w.s.h)
  {
    hide SystemInv, Followed, SampleOf, TooEarly, Publishes;
    if Due(v.f, v.l, e) {
      var op := OpForwarded(v.f.inflight.node, v.f.inflight.generation, v.f.inflight.counter);
      var result :| Followed(cfg, v.s, op, w.s, result) && w.f == AfterRemoval(v.f, result);
      FollowedKeeps(cfg, v.s, op, w.s, result);
    }
  }

  /** Over every run, what is in flight is a publication of an accepted sample, and none is forgotten. */
  lemma {:induction false} EveryCourse(cfg: Config, vs: seq<Setting>, acts: seq<Act>, n: nat)
    requires Course(cfg, vs, acts) && n < |vs| && SettingInv(cfg, vs[0])
    ensures SettingInv(cfg, vs[n]) && vs[0].s.h.log <= vs[n].s.h.log
  {
    hide SettingInv, Next;
    if n != 0 {
      EveryCourse(cfg, vs, acts, n - 1);
      assert |vs[n - 1].l.meant| == |vs[n - 1].l.acks| && Next(cfg, vs[n - 1], acts[n - 1], vs[n]);
      NextKeeps(cfg, vs[n - 1], acts[n - 1], vs[n]);
    }
  }

  /** No id of a publication the broker may still acknowledge, or one not yet popped, is that of another. */
  ghost predicate IdsApart(l: Line)
  {
    forall i, j | 0 <= i < |l.issued| && 0 <= j < |l.issued| && l.issued[i].id == l.issued[j].id
      && (i in l.unanswered || i in l.meant) && (j in l.unanswered || j in l.meant) :: i == j
  }

  /**
   * Over every run: when a poll counts a sample as forwarded and no live id was given twice, the
   * publication in flight was acknowledged, and what left the queue has its sample's identity. It is
   * the very sample when no identity was accepted twice.
   */
  lemma ForwardedWasAcknowledged(cfg: Config, vs: seq<Setting>, acts: seq<Act>, n: nat)
    requires Course(cfg, vs, acts) && n < |acts| && SettingInv(cfg, vs[0])
    requires acts[n].Polls? && vs[n + 1].f.forwarded > vs[n].f.forwarded
    requires IdsApart(vs[n].l)
    ensures
      var (v, w) := (vs[n], vs[n + 1]);
      && v.f.attempt < |v.l.issued| && v.f.attempt !in v.l.unanswered && v.f.attempt in v.l.meant
      && v.l.issued[v.f.attempt].what.sample == v.f.inflight
      && v.s.m.head < |v.s.h.log| && w.s.m.head == v.s.m.head + 1
      && (var a := v.s.h.log[v.s.m.head];
          a.node == v.f.inflight.node && a.generation == v.f.inflight.generation && a.counter == v.f.inflight.counter)
      && (Identified(v.s.h.log) ==> v.s.m.head == v.f.index)
  {
    hide SettingInv, Next;
    EveryCourse(cfg, vs, acts, n);
    assert Next(cfg, vs[n], acts[n], vs[n + 1]);
    TakenIsInFlight(cfg, vs[n], acts[n].e, vs[n + 1]);
  }

  lemma TakenIsInFlight(cfg: Config, v: Setting, e: Inputs, w: Setting)
    requires SettingInv(cfg, v) && Next(cfg, v, Polls(e), w) && w.f.forwarded > v.f.forwarded
    requires IdsApart(v.l)
    ensures v.f.attempt < |v.l.issued| && v.f.attempt !in v.l.unanswered && v.f.attempt in v.l.meant
    ensures v.l.issued[v.f.attempt].what.sample == v.f.inflight
    ensures v.s.m.head < |v.s.h.log| && w.s.m.head == v.s.m.head + 1
    ensures
      var a := v.s.h.log[v.s.m.head];
      a.node == v.f.inflight.node && a.generation == v.f.inflight.generation && a.counter == v.f.inflight.counter
    ensures Identified(v.s.h.log) ==> v.s.m.head == v.f.index
  {
    hide SystemInv, Followed, Polled, Open;
    RemovedIff(cfg, v.f, v.l, v.s, e, w.f, w.l, w.s);
    var k := FirstAck(v.l.acks, v.f.message).value;
    assert v.l.meant[k] in v.l.meant && v.l.issued[v.l.meant[k]].id == v.l.acks[k] == v.f.message;
  }

  // ------------------------------------------------------------------ an acknowledgement in time

  /** A poll at the true time, with the broker connected, while the forwarder is at work. */
  predicate PollAt(a: Act, f: Forward, time: nat)
  {
    a.Polls? && a.e.now == Reading32(time) && a.e.connected && AtWork(f, a.e)
  }

  /** What may happen while the acknowledgement is under way: polls in time, others' acknowledgements, the store. */
  ghost predicate Meanwhile(v: Setting, a: Act, sent: nat)
  {
    || (exists time: nat :: sent <= time < sent + 15000 && PollAt(a, v.f, time))
    || (a.Answers? && a.n < |v.l.issued| && v.l.issued[a.n].id != v.f.message)
    || a.Stores?
  }

  /** Within 15 s of its publication a sample stays in flight, whatever else is acknowledged or stored. */
  lemma {:induction false} StaysWaiting(cfg: Config, vs: seq<Setting>, acts: seq<Act>, sent: nat, n: nat)
    requires Course(cfg, vs, acts) && n < |vs| && SettingInv(cfg, vs[0])
    requires vs[0].f.state.Waiting? && vs[0].f.sentAt == Reading32(sent) && vs[0].f.message !in vs[0].l.acks
    requires forall i | 0 <= i < n :: Meanwhile(vs[i], acts[i], sent)
    ensures SettingInv(cfg, vs[n]) && vs[n].f == vs[0].f && vs[n].f.message !in vs[n].l.acks
  {
    hide SettingInv, Next, Meanwhile;
    EveryCourse(cfg, vs, acts, n);
    if n != 0 {
      StaysWaiting(cfg, vs, acts, sent, n - 1);
      assert |vs[n - 1].l.meant| == |vs[n - 1].l.acks| && Next(cfg, vs[n - 1], acts[n - 1], vs[n]);
      OneWait(cfg, vs[n - 1], acts[n - 1], vs[n], sent);
    }
  }

  lemma OneWait(cfg: Config, v: Setting, a: Act, w: Setting, sent: nat)
    requires |v.l.meant| == |v.l.acks| && Next(cfg, v, a, w) && Meanwhile(v, a, sent)
    requires v.f.state.Waiting? && v.f.sentAt == Reading32(sent) && v.f.message !in v.l.acks
    ensures w.f == v.f && w.f.message !in w.l.acks
  {
    hide Polled, Step;
    if a.Polls? {
      var time: nat :| sent <= time < sent + 15000 && PollAt(a, v.f, time);
      WaitsIff(cfg, v.f, v.l, v.s, a.e, w.f, w.l, w.s, sent, time);
    }
  }

  /**
   * Over every such run: an acknowledgement of the publication in flight that comes within 15 s makes the next
   * poll remove the sample, while the store still has it at the front and no write fails.
   */
  lemma AckInTime(cfg: Config, vs: seq<Setting>, acts: seq<Act>, sent: nat, n: nat)
    requires Course(cfg, vs, acts) && n + 2 < |vs| && SettingInv(cfg, vs[0])
    requires vs[0].f.state.Waiting? && vs[0].f.sentAt == Reading32(sent) && vs[0].f.message !in vs[0].l.acks
    requires forall i | 0 <= i < n :: Meanwhile(vs[i], acts[i], sent)
    requires acts[n] == Answers(vs[0].f.attempt) && acts[n + 1].Polls? && AtWork(vs[0].f, acts[n + 1].e)
    requires vs[n].s.m.health == Ready && FrontHas(vs[n].s, vs[0].f.index)
    requires
      PolledWhole(cfg, vs[n + 1].f, vs[n + 1].l, vs[n + 1].s, acts[n + 1].e, vs[n + 2].f, vs[n + 2].s)
    ensures vs[n + 2].f.state.Idle? && vs[n + 2].f.forwarded == vs[0].f.forwarded + 1
    ensures vs[n + 2].s.m.head == vs[n].s.m.head + 1 && vs[n + 2].s.m.health == Ready
  {
    hide SettingInv, Next, Meanwhile, PolledWhole, FrontHas;
    StaysWaiting(cfg, vs, acts, sent, n);
    EveryCourse(cfg, vs, acts, n + 1);
    assert |vs[n].l.meant| == |vs[n].l.acks| && Next(cfg, vs[n], acts[n], vs[n + 1]);
    assert |vs[n + 1].l.meant| == |vs[n + 1].l.acks| && Next(cfg, vs[n + 1], acts[n + 1], vs[n + 2]);
    AckThenPoll(cfg, vs[n], vs[n + 1], acts[n + 1].e, vs[n + 2]);
  }

  lemma AckThenPoll(cfg: Config, v: Setting, u: Setting, e: Inputs, w: Setting)
    requires SettingInv(cfg, v) && SettingInv(cfg, u) && v.f.state.Waiting? && AtWork(v.f, e)
    requires |v.l.meant| == |v.l.acks| && |u.l.meant| == |u.l.acks|
    requires Next(cfg, v, Answers(v.f.attempt), u) && Next(cfg, u, Polls(e), w)
    requires v.s.m.health == Ready && FrontHas(v.s, v.f.index) && PolledWhole(cfg, u.f, u.l, u.s, e, w.f, w.s)
    ensures w.f.state.Idle? && w.f.forwarded == v.f.forwarded + 1
    ensures w.s.m.head == v.s.m.head + 1 && w.s.m.health == Ready
  {
    hide SystemInv, Polled, PolledWhole, FrontHas, SampleOf;
    assert u.l.acks[|v.l.acks|] == v.f.message;
    AcknowledgedLeaves(cfg, u.f, u.l, u.s, e, w.f, w.l, w.s);
  }

  /** For 5 s after a publication was given up, polls publish nothing. */
  lemma {:induction false} QuietAfterGivingUp(cfg: Config, vs: seq<Setting>, acts: seq<Act>, from: nat, n: nat)
    requires Course(cfg, vs, acts) && n < |vs|
    requires vs[0].f.state.Idle? && vs[0].f.delayed && vs[0].f.retryAt == Reading32(from + 5000)
    requires forall i | 0 <= i < n ::
      acts[i].Polls? ==> exists time: nat :: from <= time < from + 5000 && acts[i].e.now == Reading32(time)
    requires forall i | 0 <= i < n :: !acts[i].Pauses? && !acts[i].Switches?
    ensures vs[n].f == vs[0].f && vs[n].l.issued == vs[0].l.issued
  {
    hide Polled, Step;
    if n != 0 {
      QuietAfterGivingUp(cfg, vs, acts, from, n - 1);
      var v, a, w := vs[n - 1], acts[n - 1], vs[n];
      assert |v.l.meant| == |v.l.acks| && Next(cfg, v, a, w);
      if a.Polls? {
        var time: nat :| from <= time < from + 5000 && a.e.now == Reading32(time);
        DelayedIff(from, time);
        EarlyPoll(cfg, v, a.e, w);
      }
    }
  }

  lemma EarlyPoll(cfg: Config, v: Setting, e: Inputs, w: Setting)
    requires |v.l.meant| == |v.l.acks| && Next(cfg, v, Polls(e), w)
    requires v.f.state.Idle? && v.f.delayed && TooEarly(e.now, v.f.retryAt)
    ensures w == v
  {
    hide WaitingPoll, Publishes;
  }

  // ------------------------------------------------------------------ steps of the two runs

  function NewForward(source: string): Forward
  {
    Forward(source, Idle, QueuedSample(0, 0, 0, NO_DATA, UNKNOWN_LINK), 0, 0, 0, 0, 0, false, false, 0, 0)
  }

  lemma FrontPeeked(cfg: Config, s: State)
    requires SystemInv(cfg, s.m, s.d, s.h) && cfg.role.Receiver? && s.m.health == Ready && s.m.head < |s.h.log|
    ensures Peek(cfg, s.m, s.d) == Some(SampleOf(cfg.c, s.h.log[s.m.head]))
  {
    hide SystemInv, Peek, SampleOf;
    QueueEnds(cfg, s);
    FrontIs(cfg, s.m, s.d, s.h);
    FrontIsLogged(cfg, s);
  }

  /** The front is a sample of the log, and a poll can publish it. */
  lemma Published(cfg: Config, v: Setting, now: u32, id: int) returns (w: Setting)
    requires SystemInv(cfg, v.s.m, v.s.d, v.s.h) && cfg.role.Receiver? && v.s.m.health == Ready
      && v.s.m.head < |v.s.h.log|
    requires v.f.state.Idle? && !v.f.paused && (v.f.delayed ==> now == v.f.retryAt) && id > 0
    requires |v.l.meant| == |v.l.acks|
    ensures Next(cfg, v, Polls(Inputs(true, now, true, true, id)), w) && w.s == v.s
    ensures
      var q := SampleOf(cfg.c, v.s.h.log[v.s.m.head]);
      && w.l == Issued(v.l, id, Publication(v.f.source, q))
      && w.f == v.f.(delayed := false, inflight := q, message := id, sentAt := now, state := Waiting,
                     attempt := |v.l.issued|, index := v.s.m.head)
  {
    hide SystemInv, Peek, SampleOf;
    FrontPeeked(cfg, v.s);
    var (f, l) := Publishes(cfg, v.f.(delayed := false), v.l, v.s, Inputs(true, now, true, true, id));
    w := Setting(f, l, v.s);
  }

  lemma FinishedFollows(cfg: Config, s: State, op: Op)
    requires SystemInv(cfg, s.m, s.d, s.h) && op.OpForwarded?
    ensures Followed(cfg, s, op, After(cfg, s, op), PlanOf(cfg, s.m, s.d, op).result)
    ensures SystemInv(cfg, After(cfg, s, op).m, After(cfg, s, op).d, After(cfg, s, op).h)
  {
    hide SystemInv, PlanOf, Step, After;
    Finishes(cfg, s, op);
  }

  /** The broker acknowledged the id in flight, and the front leaves. */
  lemma Taken(cfg: Config, v: Setting, now: u32) returns (w: Setting)
    requires SystemInv(cfg, v.s.m, v.s.d, v.s.h) && cfg.role.Receiver?
    requires v.f.state.Waiting? && !v.f.paused && FrontHas(v.s, v.f.index)
    requires v.f.inflight == SampleOf(cfg.c, v.s.h.log[v.f.index])
    requires |v.l.meant| == |v.l.acks| && v.l.acks == [v.f.message]
    ensures Next(cfg, v, Polls(Inputs(true, now, true, true, 1)), w)
    ensures w.f == v.f.(state := Idle, forwarded := v.f.forwarded + 1)
    ensures w.l == v.l.(acks := [], meant := [])
    ensures SystemInv(cfg, w.s.m, w.s.d, w.s.h) && w.s.m.health == Ready
    ensures w.s.m.head == v.s.m.head + 1 && w.s.h.log == v.s.h.log
  {
    var op := OpForwarded(v.f.inflight.node, v.f.inflight.generation, v.f.inflight.counter);
    var t := After(cfg, v.s, op);
    hide SystemInv, ForwardedPlan, SampleOf, Peek, After, PlanOf, Step, Followed, Allowed, SameIdentity;
    ForwardedIff(cfg, v.s, v.f.index, v.f.inflight);
    ForwardedPlanned(cfg, v.s, v.f.inflight.node, v.f.inflight.generation, v.f.inflight.counter);
    FinishedFollows(cfg, v.s, op);
    ForwardedIsIt(cfg, v.s, v.f.index, v.f.inflight, t, Ok);
    w := Setting(AfterRemoval(v.f, Ok), Popped(v.l, 1), t);
    assert FirstAck(v.l.acks, v.f.message) == Some(0);
    assert v.l.acks[1..] == [] && v.l.meant[1..] == [];
  }

  /** No acknowledgement came in time. */
  lemma TimedOut(cfg: Config, v: Setting, now: u32) returns (w: Setting)
    requires v.f.state.Waiting? && !v.f.paused && v.l.acks == [] && v.l.meant == []
    requires Elapsed(now, v.f.sentAt) >= ACK_TIMEOUT_MS
    ensures Next(cfg, v, Polls(Inputs(true, now, true, true, 1)), w)
    ensures w == v.(f := Retrying(v.f.(state := Idle, retries := v.f.retries + 1), now))
  {
    w := v.(f := Retrying(v.f.(state := Idle, retries := v.f.retries + 1), now));
    assert Popped(v.l, 0) == v.l;
  }

  // ------------------------------------------------------------------ an id given again

  /**
   * A late acknowledgement under an id the client library gave again. From any healthy queue of two
   * samples the second one leaves, although no publication of it was ever acknowledged.
   */
  lemma LateAck(cfg: Config, s: State) returns (vs: seq<Setting>, acts: seq<Act>)
    requires SystemInv(cfg, s.m, s.d, s.h) && cfg.role.Receiver? && s.m.health == Ready && s.m.head + 1 < |s.h.log|
    ensures Course(cfg, vs, acts) && |acts| == 8 && vs[0] == Setting(NewForward("receiver"), NEW_LINE, s)
    ensures
      var second := SampleOf(cfg.c, s.h.log[s.m.head + 1]);
      && vs[8].s.m.head == s.m.head + 2 && vs[8].f.forwarded == 2
      && |vs[8].l.issued| == 3 && vs[8].l.issued[2].what.sample == second && vs[8].l.unanswered == {2}
      && (forall n | 0 <= n < 2 :: vs[8].l.issued[n].what.sample == SampleOf(cfg.c, s.h.log[s.m.head]))
  {
    hide SystemInv, SampleOf, Next, LineInv;
    var v0 := Setting(NewForward("receiver"), NEW_LINE, s);
    var v1 := Published(cfg, v0, 0, 7);
    var v2 := TimedOut(cfg, v1, 15000);
    var v3 := Published(cfg, v2, 20000, 8);
    var v4 := v3.(l := Answered(v3.l, 1));
    AnswersNext(cfg, v3, 1);
    var v5 := Taken(cfg, v4, 20001);
    var v6 := Published(cfg, v5, 20002, 7);
    var v7 := v6.(l := Answered(v6.l, 0));
    AnswersNext(cfg, v6, 0);
    var v8 := Taken(cfg, v7, 20003);
    vs := [v0, v1, v2, v3, v4, v5, v6, v7, v8];
    acts := [Polls(Inputs(true, 0, true, true, 7)), Polls(Inputs(true, 15000, true, true, 1)),
             Polls(Inputs(true, 20000, true, true, 8)), Answers(1), Polls(Inputs(true, 20001, true, true, 1)),
             Polls(Inputs(true, 20002, true, true, 7)), Answers(0), Polls(Inputs(true, 20003, true, true, 1))];
  }

  lemma AnswersNext(cfg: Config, v: Setting, n: nat)
    requires |v.l.meant| == |v.l.acks| && n in v.l.unanswered && n < |v.l.issued|
    ensures Next(cfg, v, Answers(n), v.(l := Answered(v.l, n)))
  {
  }

  // ------------------------------------------------------------------ an identity queued twice

  /**
   * A copy of the front's identity is queued behind it, and a full queue gives up the front while
   * it is in flight: its acknowledgement then removes the copy, which was never published.
   */
  lemma CopyRemoved(cfg: Config, s: State, b: Binding, expected: u64, r: Receipt)
    returns (vs: seq<Setting>, acts: seq<Act>)
    requires SystemInv(cfg, s.m, s.d, s.h) && cfg.role.Receiver? && s.m.health == Ready
    requires Queued(s.m) == QUEUE_CAPACITY && SameIdentity(s.h.log[s.m.head], s.h.log[s.m.head + 1])
    requires Allowed(cfg, s.m, s.d, s.h, OpCommit(b, expected, r))
      && CommitPlan(cfg, s.m, s.d, b, expected, r).result == Ok
    ensures Course(cfg, vs, acts) && |acts| == 4 && vs[0] == Setting(NewForward("receiver"), NEW_LINE, s)
    ensures vs[4].f.forwarded == 1 && |vs[4].l.issued| == 1
    ensures vs[4].f.index == s.m.head && vs[3].s.m.head == s.m.head + 1 && vs[4].s.m.head == s.m.head + 2
  {
    hide SystemInv, SampleOf, Next, LineInv, CommitPlan, Allowed;
    QueueEnds(cfg, s);
    var v0 := Setting(NewForward("receiver"), NEW_LINE, s);
    var v1 := Published(cfg, v0, 0, 7);
    var t := FullCommit(cfg, s, b, expected, r);
    var v2 := v1.(s := t);
    StoresNext(cfg, v1, Finished(OpCommit(b, expected, r)), t);
    var v3 := v2.(l := Answered(v2.l, 0));
    AnswersNext(cfg, v2, 0);
    var v4 := Taken(cfg, v3, 1);
    vs := [v0, v1, v2, v3, v4];
    acts := [Polls(Inputs(true, 0, true, true, 7)), Stores(Finished(OpCommit(b, expected, r))), Answers(0),
             Polls(Inputs(true, 1, true, true, 1))];
  }

  lemma StoresNext(cfg: Config, v: Setting, event: Event, t: State)
    requires |v.l.meant| == |v.l.acks| && Step(cfg, v.s, event, t)
    ensures Next(cfg, v, Stores(event), v.(s := t))
  {
    hide Step;
  }

  /** A commit that reported Ok into a full queue. */
  lemma FullCommit(cfg: Config, s: State, b: Binding, expected: u64, r: Receipt) returns (t: State)
    requires SystemInv(cfg, s.m, s.d, s.h) && cfg.role.Receiver? && s.m.health == Ready && Queued(s.m) == QUEUE_CAPACITY
    requires Allowed(cfg, s.m, s.d, s.h, OpCommit(b, expected, r))
      && CommitPlan(cfg, s.m, s.d, b, expected, r).result == Ok
    ensures Step(cfg, s, Finished(OpCommit(b, expected, r)), t) && SystemInv(cfg, t.m, t.d, t.h)
    ensures t.m.health == Ready && t.m.head == s.m.head + 1 && s.h.log <= t.h.log
  {
    hide SystemInv, Allowed, CommitPlan, Step, Acceptable, FrontHealth;
    var op := OpCommit(b, expected, r);
    t := After(cfg, s, op);
    Finishes(cfg, s, op);
    CommitPlanned(cfg, s, b, expected, r);
    OkWrites(cfg, s.m, s.d, b, expected, r);
    StoreFits.CommitIsAccept(cfg, s.m, s.d, b, expected, r);
    LogGrows(cfg, [s, t], [Finished(op)], 0, 1);
  }

  // ------------------------------------------------------------------ both, on one migrated receiver

  predicate Fits(m: Message) { m.kind.DataKind? && m.data.count <= MAX_READINGS }

  /** A v1 snapshot of a receiver with one active node and its samples queued; the last one is the newest. */
  function SnapOf(c: Crypto, x: Credential, ms: seq<Message>): Snap
    requires ms != [] && forall i | 0 <= i < |ms| :: Fits(ms[i])
  {
    var last := ms[|ms| - 1];
    assert Fits(last);
    var frame := SealFrame(c, BindingFor(x), last);
    Snap(1, x.network, x.receiver, 1, [OldEntry(Active, x.node, x.generation, 0, x.key, last.counter, frame)],
         seq(|ms|, i requires 0 <= i < |ms| && Fits(ms[i]) => OldQueued(0, SealFrame(c, BindingFor(x), ms[i]))))
  }

  ghost predicate Queueable(x: Credential, ms: seq<Message>)
  {
    && 0 < |ms| <= QUEUE_CAPACITY
    && (forall i | 0 <= i < |ms| :: Fits(ms[i]) && Sealable(ms[i]) && ms[i].counter <= ms[|ms| - 1].counter)
  }

  lemma FrameCounts(cfg: Config, x: Credential, e: OldEntry, m: Message)
    requires WellFormed(cfg, x) && Fits(m) && Sealable(m) && e.node == x.node && e.key == x.key
    ensures OldCounter(cfg.c, e, x.network, SealFrame(cfg.c, BindingFor(x), m)) == Some(m.counter)
  {
    OpenSeal(cfg.c, BindingFor(x), m);
    hide Open, SealFrame;
  }

  lemma SnapOfFits(cfg: Config, x: Credential, ms: seq<Message>)
    requires cfg.role.Receiver? && WellFormed(cfg, x) && Queueable(x, ms)
    ensures
      var s := SnapOf(cfg.c, x, ms);
      SnapFits(cfg.c, cfg.role, cfg.device, s) && OnePreparedEach(s) && MarksApart(cfg.c, NewEntries(s))
  {
    SnapEntryFits(cfg, x, ms);
    SnapQueueFits(cfg, x, ms);
    var s := SnapOf(cfg.c, x, ms);
    assert x.network != 0 && x.receiver == cfg.device && x.receiver != 0;
    assert |s.entries| == 1 && |s.queue| == |ms| && s.network == x.network && s.receiver == x.receiver;
    assert s.revision == 1 && s.profile == 1;
    hide SnapOf, OldEntryFits, OldQueuedFits, WellFormed, Queueable;
  }

  lemma SnapEntryFits(cfg: Config, x: Credential, ms: seq<Message>)
    requires cfg.role.Receiver? && WellFormed(cfg, x) && Queueable(x, ms)
    ensures
      var s := SnapOf(cfg.c, x, ms);
      OldEntryFits(cfg.c, cfg.role, cfg.device, s.network, s.receiver, s.entries[0])
  {
    hide OldCounter, SealFrame;
    FrameCounts(cfg, x, SnapOf(cfg.c, x, ms).entries[0], ms[|ms| - 1]);
  }

  lemma SnapQueueFits(cfg: Config, x: Credential, ms: seq<Message>)
    requires cfg.role.Receiver? && WellFormed(cfg, x) && Queueable(x, ms)
    ensures
      var s := SnapOf(cfg.c, x, ms);
      forall i | 0 <= i < |s.queue| :: OldQueuedFits(cfg.c, s.network, s.entries, s.queue[i])
  {
    hide OldCounter, SealFrame, WellFormed, Sealable;
    var s := SnapOf(cfg.c, x, ms);
    forall i | 0 <= i < |s.queue| ensures OldQueuedFits(cfg.c, s.network, s.entries, s.queue[i]) {
      FrameCounts(cfg, x, s.entries[0], ms[i]);
    }
  }

  /** The device after the migration and its first mount. */
  ghost function MigratedState(cfg: Config, s: Snap): State
    requires SnapFits(cfg.c, cfg.role, cfg.device, s)
  {
    var d := ApplyAll(OldDevice(s), MigrateWrites(cfg.role, s));
    State(LoadDisk(cfg, d), d, Past(cfg, s))
  }

  lemma MigratedQueue(cfg: Config, x: Credential, ms: seq<Message>) returns (t: State)
    requires cfg.role.Receiver? && WellFormed(cfg, x) && Queueable(x, ms)
    ensures SnapFits(cfg.c, cfg.role, cfg.device, SnapOf(cfg.c, x, ms)) && t == MigratedState(cfg, SnapOf(cfg.c, x, ms))
    ensures SystemInv(cfg, t.m, t.d, t.h) && t.m.health == Ready && t.m.head == 0 && t.m.tail == |ms| == |t.h.log|
    ensures t.m.registry == NewRegistry(SnapOf(cfg.c, x, ms)) && t.m.receipts[0].counter == ms[|ms| - 1].counter
    ensures forall i | 0 <= i < |ms| ::
      t.h.log[i].node == x.node && t.h.log[i].generation == x.generation && t.h.log[i].counter == ms[i].counter
  {
    var s := SnapOf(cfg.c, x, ms);
    SnapOfFits(cfg, x, ms);
    assert |s.queue| == |ms| && |s.entries| == 1 && s.entries[0].received == ms[|ms| - 1].counter;
    hide SnapFits, LoadDisk, MarksApart, OnePreparedEach, ApplyAll, MigrateWrites, SystemInv, SnapOf, Past, NewRegistry;
    t := MigratedState(cfg, s);
    assert Attempts(OldDevice(s), MigrateWrites(cfg.role, s), []) == OldDevice(s);
    MigratedRuns(cfg, s, [], [t], [], 0);
    MigrationCompletes(cfg, s, []);
    hide SameQueue;
    MigratedLog(cfg, x, ms);
  }

  lemma MigratedLog(cfg: Config, x: Credential, ms: seq<Message>)
    requires cfg.role.Receiver? && WellFormed(cfg, x) && Queueable(x, ms)
    requires SnapFits(cfg.c, cfg.role, cfg.device, SnapOf(cfg.c, x, ms))
    ensures
      var log := Past(cfg, SnapOf(cfg.c, x, ms)).log;
      && |log| == |ms|
      && forall i | 0 <= i < |ms| ::
           log[i].node == x.node && log[i].generation == x.generation && log[i].counter == ms[i].counter
  {
    hide SnapFits, WellFormed, OldCounter, SealFrame, Sealable;
    var s := SnapOf(cfg.c, x, ms);
    EntriesInRange(cfg.c, cfg.role, cfg.device, s);
    forall i | 0 <= i < |ms| ensures CounterOf(cfg.c, s, i) == ms[i].counter {
      FrameCounts(cfg, x, s.entries[0], ms[i]);
    }
  }

  /** The migrated receiver accepts the node's next sample. */
  lemma NextCommits(cfg: Config, x: Credential, ms: seq<Message>, t: State, r: Receipt)
    requires cfg.role.Receiver? && WellFormed(cfg, x) && Queueable(x, ms)
    requires SystemInv(cfg, t.m, t.d, t.h) && t.m.health == Ready && t.m.head < t.m.tail
    requires t.m.registry == NewRegistry(SnapOf(cfg.c, x, ms))
    requires Acceptable(cfg.c, BindingFor(x), t.m.receipts[0].counter, r)
    ensures CommitPlan(cfg, t.m, t.d, BindingFor(x), t.m.receipts[0].counter, r).result == Ok
  {
    FrontReads(cfg, t);
    hide SystemInv, Acceptable, FrontHealth, SealFrame;
    var es, b := t.m.registry.entries, BindingFor(x);
    assert Matches(es[0], b);
    assert Authorized(t.m, b) == Some(0);
    assert Superseding(es, b.node, 0) == es;
  }

  lemma FrontReads(cfg: Config, s: State)
    requires SystemInv(cfg, s.m, s.d, s.h) && s.m.health == Ready && cfg.role.Receiver? && s.m.head < s.m.tail
    ensures FrontHealth(s.m, s.d) == Ready
  {
    FrontIs(cfg, s.m, s.d, s.h);
  }

  const SECOND_SAMPLE := EXAMPLE_SAMPLE.(counter := 2)

  lemma ExampleSamples(cfg: Config, xs: seq<Credential>)
    requires |xs| > 0 && WellFormed(cfg, xs[0]) && Sealable(EXAMPLE_SAMPLE)
    ensures Fits(EXAMPLE_SAMPLE) && Fits(SECOND_SAMPLE) && Sealable(SECOND_SAMPLE)
    ensures
      var r := FirstSample(cfg.c, xs[0], SECOND_SAMPLE, KEEP_POWER);
      r.ackPower == KEEP_POWER && Acceptable(cfg.c, BindingFor(xs[0]), 1, r)
  {
    OpenSeal(cfg.c, BindingFor(xs[0]), SECOND_SAMPLE);
    hide Open, SealFrame;
  }

  /**
   * One receiver and two of its snapshots: with two different samples queued, the second leaves though
   * only the first was acknowledged; with one frame queued over and over, a copy leaves that was
   * never published.
   */
  lemma BothLeave()
    returns (cfg: Config, s: Snap, vs: seq<Setting>, acts: seq<Act>, t: Snap, ws: seq<Setting>, bcts: seq<Act>)
    ensures SnapFits(cfg.c, cfg.role, cfg.device, s) && SnapFits(cfg.c, cfg.role, cfg.device, t)
    ensures Course(cfg, vs, acts) && |acts| == 8
    ensures vs[0] == Setting(NewForward("receiver"), NEW_LINE, MigratedState(cfg, s))
    ensures
      var log := vs[0].s.h.log;
      && |log| == 2 && !SameIdentity(log[0], log[1]) && vs[0].s.m.head == 0 && vs[8].s.m.head == 2
        && vs[8].f.forwarded == 2
      && |vs[8].l.issued| == 3 && vs[8].l.unanswered == {2} && vs[8].l.issued[2].what.sample == SampleOf(cfg.c, log[1])
      && (forall n | 0 <= n < 2 :: vs[8].l.issued[n].what.sample == SampleOf(cfg.c, log[0]))
    ensures forall i | 0 <= i < |t.queue| :: t.queue[i] == t.queue[0]
    ensures Course(cfg, ws, bcts) && |bcts| == 4
    ensures ws[0] == Setting(NewForward("receiver"), NEW_LINE, MigratedState(cfg, t))
    ensures ws[4].f.forwarded == 1 && |ws[4].l.issued| == 1 && ws[4].f.index == 0
    ensures ws[3].s.m.head == 1 && ws[4].s.m.head == 2
  {
    hide SnapFits, SystemInv, WellFormed, Sealable, Acceptable, SealFrame, SampleOf, CommitPlan, Course, Unrelated,
      MigratedState;
    var xs;
    cfg, xs := ExampleFits();
    var x := xs[0];
    ExampleSamples(cfg, xs);
    var two := [EXAMPLE_SAMPLE, SECOND_SAMPLE];
    var a := MigratedQueue(cfg, x, two);
    s := SnapOf(cfg.c, x, two);
    vs, acts := LateAck(cfg, a);
    var many := seq(QUEUE_CAPACITY, i => EXAMPLE_SAMPLE);
    var b := MigratedQueue(cfg, x, many);
    t := SnapOf(cfg.c, x, many);
    var r := FirstSample(cfg.c, x, SECOND_SAMPLE, KEEP_POWER);
    NextCommits(cfg, x, many, b, r);
    ws, bcts := CopyRemoved(cfg, b, BindingFor(x), 1, r);
  }
}
