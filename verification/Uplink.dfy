// The forwarder (cajui_uplink.cpp): publishes the queue front and removes it only after the
// broker acknowledged that publication.
module Uplink {
  import opened Protocol
  import opened Codec
  import opened Records
  import opened Store
  import opened StoreInvariant
  import opened StoreOps
  import opened StoreRuns
  import opened StoreObject
  import opened StoreLaws
  import opened Clocks

  const ACK_TIMEOUT_MS := 15000
  const RETRY_DELAY_MS := 5000

  /** What is published: a sample, under an identity. */
  datatype Publication = Publication(source: string, sample: QueuedSample)

  // ------------------------------------------------------------------ the broker's side

  /** A publication the client library accepted, and the id it gave; it may give an id again. */
  datatype Issue = Issue(id: int, what: Publication)

  /**
   * The ids the broker acknowledged and that were not popped yet, which publication each is
   * for, every publication ever accepted, and those the broker has not acknowledged.
   */
  datatype Line = Line(acks: seq<int>, meant: seq<nat>, issued: seq<Issue>, unanswered: set<nat>)

  const NEW_LINE := Line([], [], [], {})

  /** A publication is acknowledged at most once, under the id it was given. */
  ghost predicate LineInv(l: Line)
  {
    && |l.meant| == |l.acks|
    && (forall k | 0 <= k < |l.meant| :: l.meant[k] < |l.issued| && l.issued[l.meant[k]].id == l.acks[k])
    && (forall k | 0 <= k < |l.meant| :: l.meant[k] !in l.unanswered)
    && (forall j, k | 0 <= j < |l.meant| && 0 <= k < |l.meant| && l.meant[j] == l.meant[k] :: j == k)
    && (forall n | n in l.unanswered :: n < |l.issued|)
    && (forall n | 0 <= n < |l.issued| :: l.issued[n].id > 0)
  }

  function Issued(l: Line, id: int, p: Publication): Line
  {
    l.(issued := l.issued + [Issue(id, p)], unanswered := l.unanswered + {|l.issued|})
  }

  /** The broker acknowledges the publication, however late. */
  function Answered(l: Line, n: nat): Line
    requires n < |l.issued|
  {
    l.(acks := l.acks + [l.issued[n].id], meant := l.meant + [n], unanswered := l.unanswered - {n})
  }

  function Popped(l: Line, k: nat): Line
    requires k <= |l.acks| == |l.meant|
  {
    l.(acks := l.acks[k..], meant := l.meant[k..])
  }

  lemma LineKept(l: Line)
    requires LineInv(l)
    ensures forall id, p | id > 0 :: LineInv(Issued(l, id, p))
    ensures forall n | n in l.unanswered :: LineInv(Answered(l, n))
    ensures forall k: nat | k <= |l.acks| :: LineInv(Popped(l, k))
  {
  }

  /** The first acknowledgement of the id. */
  function FirstAck(acks: seq<int>, id: int): (r: Option<nat>)
    ensures r.Some? ==> r.value < |acks| && acks[r.value] == id && forall j | 0 <= j < r.value :: acks[j] != id
    ensures r.None? ==> id !in acks
  {
    if acks == [] then None
    else if acks[0] == id then Some(0)
    else
      var r := FirstAck(acks[1..], id);
      if r.None? then None else Some(r.value + 1)
  }

  /** What the broker may acknowledge next: publications it has not acknowledged, each once. */
  ghost predicate MayAnswer(l: Line, ns: seq<nat>)
  {
    && (forall i | 0 <= i < |ns| :: ns[i] in l.unanswered)
    && (forall i, j | 0 <= i < j < |ns| :: ns[i] != ns[j])
  }

  function AnsweredAll(l: Line, ns: seq<nat>): (r: Line)
    requires forall i | 0 <= i < |ns| :: ns[i] < |l.issued|
    ensures r.issued == l.issued && r.meant == l.meant + ns && |r.acks| == |l.acks| + |ns|
    ensures forall k | 0 <= k < |r.acks| :: r.acks[k] == if k < |l.acks| then l.acks[k]
      else l.issued[ns[k - |l.acks|]].id
  {
    if ns == [] then l else Answered(AnsweredAll(l, ns[..|ns| - 1]), ns[|ns| - 1])
  }

  /** The acknowledgement a poll takes for the id, if there is one, is for one of these publications. */
  ghost predicate TakesOneOf(l: Line, id: int, these: set<nat>)
    requires |l.meant| == |l.acks|
  {
    var k := FirstAck(l.acks, id);
    k.Some? ==> l.meant[k.value] in these
  }

  /** Nothing but these publications can still be acknowledged under the id before one of these is. */
  ghost predicate OnlyThese(l: Line, id: int, these: set<nat>)
    requires |l.meant| == |l.acks|
  {
    var k := FirstAck(l.acks, id);
    if k.Some? then l.meant[k.value] in these
    else forall n | n in l.unanswered && n < |l.issued| && l.issued[n].id == id :: n in these
  }

  /**
   * Whatever the broker acknowledges, a poll takes the acknowledgement of one of these
   * publications for the id, exactly when the first one already there is of one of them or, with
   * none there, no other publication under the id is left unanswered.
   */
  lemma TakenIff(l: Line, id: int, these: set<nat>)
    requires LineInv(l)
    ensures OnlyThese(l, id, these) <==> forall ns | MayAnswer(l, ns) :: TakesOneOf(AnsweredAll(l, ns), id, these)
  {
    forall ns | MayAnswer(l, ns) && OnlyThese(l, id, these) ensures TakesOneOf(AnsweredAll(l, ns), id, these) {
      TakenLater(l, id, these, ns);
    }
    if !OnlyThese(l, id, these) {
      assert MayAnswer(l, []) && AnsweredAll(l, []) == l;
      if FirstAck(l.acks, id).None? {
        var n :| n in l.unanswered && n < |l.issued| && l.issued[n].id == id && n !in these;
        OneAnswer(l, n);
        assert MayAnswer(l, [n]) && !TakesOneOf(AnsweredAll(l, [n]), id, these);
      } else {
        assert !TakesOneOf(AnsweredAll(l, []), id, these);
      }
    }
  }

  lemma OneAnswer(l: Line, n: nat)
    requires LineInv(l) && n in l.unanswered
    ensures AnsweredAll(l, [n]).acks == l.acks + [l.issued[n].id] && AnsweredAll(l, [n]).meant == l.meant + [n]
  {
    assert [n][..0] == [];
  }

  lemma TakenLater(l: Line, id: int, these: set<nat>, ns: seq<nat>)
    requires LineInv(l) && MayAnswer(l, ns) && OnlyThese(l, id, these)
    ensures TakesOneOf(AnsweredAll(l, ns), id, these)
  {
    var t := AnsweredAll(l, ns);
    var j, k := FirstAck(l.acks, id), FirstAck(t.acks, id);
    if j.Some? {
      assert t.acks[j.value] == id;
      assert t.meant[j.value] == l.meant[j.value];
      assert k == j;
    } else if k.Some? {
      assert k.value >= |l.acks|;
      assert t.meant[k.value] == ns[k.value - |l.acks|];
    }
  }

  /**
   * The broker client, as its header promises it: a positive id for each accepted publication, and
   * a queue of ids the broker acknowledged. What an acknowledgement is for is not stored.
   */
  class Publisher {
    var acks: seq<int>
    ghost var meant: seq<nat>
    ghost var issued: seq<Issue>
    ghost var unanswered: set<nat>

    ghost function Book(): Line
      reads this
    {
      Line(acks, meant, issued, unanswered)
    }

    ghost predicate Valid()
      reads this
    {
      LineInv(Book())
    }

    constructor ()
      ensures Valid() && Book() == NEW_LINE
    {
      acks, meant, issued, unanswered := [], [], [], {};
    }

    /** Zero when not accepted. The id is the library's choice. */
    method Publish(p: Publication, id: int) returns (given: int)
      requires Valid()
      modifies this`issued, this`unanswered
      ensures Valid() && given == (if id > 0 then id else 0)
      ensures Book() == if id > 0 then Issued(old(Book()), id, p) else old(Book())
    {
      LineKept(Book());
      given := if id > 0 then id else 0;
      if id > 0 {
        unanswered := unanswered + {|issued|};
        issued := issued + [Issue(id, p)];
      }
    }

    /** The broker acknowledges a publication. */
    method PubAck(id: int, ghost n: nat)
      requires Valid() && n in unanswered && issued[n].id == id
      modifies this`acks, this`meant, this`unanswered
      ensures Valid() && Book() == Answered(old(Book()), n)
    {
      LineKept(Book());
      acks, meant, unanswered := acks + [id], meant + [n], unanswered - {n};
    }

    /** Pops one acknowledged id. */
    method Acknowledged() returns (id: Option<int>)
      requires Valid()
      modifies this`acks, this`meant
      ensures Valid()
      ensures old(acks) == [] ==> id == None && Book() == old(Book())
      ensures old(acks) != [] ==> id == Some(old(acks)[0]) && Book() == Popped(old(Book()), 1)
    {
      LineKept(Book());
      if acks == [] {
        return None;
      }
      id := Some(acks[0]);
      acks, meant := acks[1..], meant[1..];
    }
  }

  // ------------------------------------------------------------------ the sample in flight

  datatype ForwardState = Idle | Waiting | Failed

  /** The sample the queue record of an accepted sample holds. */
  ghost function SampleOf(c: Crypto, a: Accepted): QueuedSample
  {
    var m := Open(c, Binding(a.network, a.node, a.key, true), a.frame);
    QueuedSample(a.node, a.generation, a.counter, if m.Done? then m.value.data else NO_DATA, a.link)
  }

  /** A healthy front is the sample at the head of the log. */
  lemma FrontIsLogged(cfg: Config, s: State)
    requires SystemInv(cfg, s.m, s.d, s.h) && s.m.health == Ready && cfg.role.Receiver? && Peek(cfg, s.m, s.d).Some?
    ensures s.m.head < |s.h.log| && Peek(cfg, s.m, s.d).value == SampleOf(cfg.c, s.h.log[s.m.head])
  {
    PeekedQueue(cfg, s);
    FrontIs(cfg, s.m, s.d, s.h);
  }

  lemma PeekedQueue(cfg: Config, s: State)
    requires SystemInv(cfg, s.m, s.d, s.h) && s.m.health == Ready && cfg.role.Receiver? && Peek(cfg, s.m, s.d).Some?
    ensures s.m.head < s.m.tail == |s.h.log|
  {
    hide FrontHealth, Inv, Open;
    assert s.m.head <= s.m.tail;
  }

  /** The front of the queue has the identity of the accepted sample at the index. */
  ghost predicate FrontHas(s: State, index: nat)
  {
    s.m.health == Ready && s.m.head < |s.h.log| && index < |s.h.log| && SameIdentity(s.h.log[s.m.head], s.h.log[index])
  }

  /** Removal by identity is granted exactly when the front has that identity. */
  lemma ForwardedIff(cfg: Config, s: State, index: nat, q: QueuedSample)
    requires SystemInv(cfg, s.m, s.d, s.h) && cfg.role.Receiver?
    requires index < |s.h.log| && q == SampleOf(cfg.c, s.h.log[index])
    ensures ForwardedPlan(cfg, s.m, s.d, q.node, q.generation, q.counter).result == Ok <==> FrontHas(s, index)
  {
    if s.m.health == Ready {
      QueueEnds(cfg, s);
      if s.m.head < |s.h.log| {
        FrontIs(cfg, s.m, s.d, s.h);
      }
      hide SystemInv, PeekHealth, Find, FrontHealth, Open;
    }
  }

  lemma QueueEnds(cfg: Config, s: State)
    requires SystemInv(cfg, s.m, s.d, s.h) && s.m.health == Ready && cfg.role.Receiver?
    ensures s.m.head <= s.m.tail == |s.h.log|
  {
    hide Inv;
  }

  /**
   * What a removal by identity does, whatever becomes of its write: it takes the front exactly
   * when that has the identity and the write did not fail, and otherwise leaves a healthy queue
   * alone. The front is that very sample when no identity was accepted twice.
   */
  lemma ForwardedIsIt(cfg: Config, s: State, index: nat, q: QueuedSample, t: State, result: Result)
    requires SystemInv(cfg, s.m, s.d, s.h) && cfg.role.Receiver?
    requires index < |s.h.log| && q == SampleOf(cfg.c, s.h.log[index])
    requires Followed(cfg, s, OpForwarded(q.node, q.generation, q.counter), t, result)
    ensures result == Ok <==> FrontHas(s, index) && result != StorageError
    ensures t.h.log == s.h.log
    ensures result == Ok ==> t.m.head == s.m.head + 1 && t.m.health == Ready
    ensures result != Ok && t.m.health == Ready ==> t.m.head == s.m.head
    ensures result == Ok && Identified(s.h.log) ==> s.m.head == index
  {
    ForwardedIff(cfg, s, index, q);
    ForwardedEffect(cfg, s, q, t, result);
  }

  predicate SameIdentity(a: Accepted, b: Accepted)
  {
    a.node == b.node && a.generation == b.generation && a.counter == b.counter
  }

  /** No two samples were accepted under one identity. */
  ghost predicate Identified(log: seq<Accepted>)
  {
    forall i, j | 0 <= i < |log| && 0 <= j < |log| && SameIdentity(log[i], log[j]) :: i == j
  }

  /** Only a migrated queue can hold an identity twice; what is accepted here never does. */
  lemma IdentifiedIff(cfg: Config, s: State)
    requires SystemInv(cfg, s.m, s.d, s.h) && cfg.role.Receiver?
    ensures s.h.origin.base <= |s.h.log|
    ensures Identified(s.h.log) <==> Identified(s.h.log[..s.h.origin.base])
  {
    hide Opens, SameOwner, Identified, Validated, Agrees, RegistryFits, Owned, ReceiptInv, RingInv;
    assert LogInv(cfg.c, s.h.log, s.h.origin.base) && CarriedInv(cfg.c, s.h);
    IdentifiedPrefix(s.h.log, s.h.origin.base);
  }

  lemma IdentifiedPrefix(log: seq<Accepted>, base: nat)
    requires base <= |log|
    requires forall i, j | 0 <= i < j < |log| && base <= j ::
      log[i].generation == log[j].generation ==> log[i].counter < log[j].counter
    ensures Identified(log) <==> Identified(log[..base])
  {
    var brought := log[..base];
    if Identified(brought) {
      forall i, j | 0 <= i < |log| && 0 <= j < |log| && SameIdentity(log[i], log[j]) ensures i == j {
        if i < base && j < base {
          assert SameIdentity(brought[i], brought[j]);
        }
      }
    }
    if Identified(log) {
      forall i, j | 0 <= i < base && 0 <= j < base && SameIdentity(brought[i], brought[j]) ensures i == j {
        assert SameIdentity(log[i], log[j]);
      }
    }
  }

  lemma ForwardedEffect(cfg: Config, s: State, q: QueuedSample, t: State, result: Result)
    requires SystemInv(cfg, s.m, s.d, s.h) && Followed(cfg, s, OpForwarded(q.node, q.generation, q.counter), t, result)
    ensures
      var p := ForwardedPlan(cfg, s.m, s.d, q.node, q.generation, q.counter);
      && (result == p.result || result == StorageError) && t.h.log == s.h.log
      && (result == Ok ==> t.m.head == s.m.head + 1 && t.m.health == Ready)
      && (result != Ok && t.m.health == Ready ==> t.m.head == s.m.head)
  {
    hide SystemInv, Peek, PeekHealth, Find, LoadDisk;
    ForwardedPlanned(cfg, s, q.node, q.generation, q.counter);
    var ws := ForwardedPlan(cfg, s.m, s.d, q.node, q.generation, q.counter).writes;
    assert ws == [] || ws == [Write.SaveHead(s.m.head + 1)];
    assert forall k: nat | k <= |ws| :: ws[..k] == [] || ws[..k] == ws;
    assert ws != [] ==> ws[1..] == [];
    assert TrackAll(s.h, s.d, ws) == s.h;
  }

  // ------------------------------------------------------------------ one poll

  /**
   * The forwarder; `attempt` is the publication in flight and `index` its sample's place in the log, neither
   * stored.
   */
  datatype Forward = Forward(
    source: string, state: ForwardState, inflight: QueuedSample, message: int, sentAt: u32, retryAt: u32,
    forwarded: nat, retries: nat, delayed: bool, paused: bool, attempt: nat, index: nat)

  /** What a poll is given: the radio needs no loop time, the clock, and what the broker client answers. */
  datatype Inputs = Inputs(quiet: bool, now: u32, connected: bool, fits: bool, id: int)

  /** What is in flight is a publication of one accepted sample. */
  ghost predicate InFlight(c: Crypto, f: Forward, l: Line, h: History)
  {
    f.state.Waiting? ==>
      && f.attempt < |l.issued| && l.issued[f.attempt] == Issue(f.message, Publication(f.source, f.inflight))
      && f.index < |h.log| && f.inflight == SampleOf(c, h.log[f.index])
  }

  function Retrying(f: Forward, now: u32): Forward
  {
    f.(delayed := true, retryAt := (now + RETRY_DELAY_MS) % 0x1_0000_0000)
  }

  /** The signed difference of the two readings is negative. */
  predicate TooEarly(now: u32, at: u32) { (now - at) % 0x1_0000_0000 >= 0x8000_0000 }

  predicate Polling(f: Forward, e: Inputs) { !f.state.Failed? && e.quiet && !f.paused }

  function AfterRemoval(f: Forward, result: Result): Forward
  {
    f.(state := if result == StorageError then ForwardState.Failed else Idle,
       forwarded := f.forwarded + if result == Ok then 1 else 0)
  }

  /** A poll while a publication is in flight. */
  ghost predicate WaitingPoll(cfg: Config, f: Forward, l: Line, s: State, e: Inputs, g: Forward, k: Line, t: State)
    requires |l.meant| == |l.acks|
  {
    var first := FirstAck(l.acks, f.message);
    if first.Some? then
      && k == Popped(l, first.value + 1)
      && exists result ::
           && Followed(cfg, s, OpForwarded(f.inflight.node, f.inflight.generation, f.inflight.counter), t, result)
           && g == AfterRemoval(f, result)
    else
      && k == Popped(l, |l.acks|) && t == s
      && g == if !e.connected || Elapsed(e.now, f.sentAt) >= ACK_TIMEOUT_MS
              then Retrying(f.(state := Idle, retries := f.retries + 1), e.now) else f
  }

  /** The sample is published, unless it cannot be formatted or the client does not take it. */
  function PublishesSample(f: Forward, l: Line, q: QueuedSample, head: nat, e: Inputs): (Forward, Line)
  {
    if !e.fits then (f.(state := ForwardState.Failed), l)
    else if e.id <= 0 then (Retrying(f, e.now), l)
    else (f.(inflight := q, message := e.id, sentAt := e.now, state := Waiting, attempt := |l.issued|, index := head),
          Issued(l, e.id, Publication(f.source, q)))
  }

  /** The front of the queue is published, unless there is none. */
  ghost function Publishes(cfg: Config, f: Forward, l: Line, s: State, e: Inputs): (Forward, Line)
  {
    var front := Peek(cfg, s.m, s.d);
    if front.None? then (f.(state := if s.m.health == Ready then Idle else ForwardState.Failed), l)
    else PublishesSample(f, l, front.value, s.m.head, e)
  }

  /** What one poll does to the forwarder, the broker client and the store. */
  ghost predicate Polled(cfg: Config, f: Forward, l: Line, s: State, e: Inputs, g: Forward, k: Line, t: State)
    requires |l.meant| == |l.acks|
  {
    if !Polling(f, e) then g == f && k == l && t == s
    else if f.state.Waiting? then WaitingPoll(cfg, f, l, s, e, g, k, t)
    else if f.delayed && TooEarly(e.now, f.retryAt) then g == f && k == l && t == s
    else if !e.connected then g == f.(delayed := false) && k == l && t == s
    else (g, k) == Publishes(cfg, f.(delayed := false), l, s, e) && t == s
  }

  /** The acknowledgement of the id in flight has come, and this poll takes it. */
  predicate Due(f: Forward, l: Line, e: Inputs) { Polling(f, e) && f.state.Waiting?
                                                 && FirstAck(l.acks, f.message).Some? }

  /**
   * A sample is counted as forwarded by a poll exactly when the acknowledgement of the id in
   * flight has come, the front has the identity in flight and the write did not fail; then the
   * front leaves. It is the very sample in flight exactly when that is the front. Nothing else a
   * poll does moves a healthy queue.
   */
  lemma RemovedIff(cfg: Config, f: Forward, l: Line, s: State, e: Inputs, g: Forward, k: Line, t: State)
    requires SystemInv(cfg, s.m, s.d, s.h) && cfg.role.Receiver? && LineInv(l) && InFlight(cfg.c, f, l, s.h)
    requires |l.meant| == |l.acks| && Polled(cfg, f, l, s, e, g, k, t)
    ensures g.forwarded == f.forwarded || g.forwarded == f.forwarded + 1
    ensures g.forwarded == f.forwarded + 1 <==> Due(f, l, e) && FrontHas(s, f.index) && !g.state.Failed?
    ensures g.forwarded == f.forwarded + 1 ==>
      t.m.head == s.m.head + 1 && t.m.health == Ready && (s.m.head <= f.index < t.m.head <==> f.index == s.m.head)
    ensures g.forwarded == f.forwarded && t.m.health == Ready ==> t.m.head == s.m.head
    ensures t.h.log == s.h.log
    ensures Due(f, l, e) ==> !g.state.Waiting? && |k.acks| < |l.acks|
  {
    hide SystemInv, Followed, Peek, SampleOf, TooEarly, Publishes, LineInv, FrontHas;
    PublishedOnly(cfg, f.(delayed := false), l, s, e);
    if Due(f, l, e) {
      var result :|
        && Followed(cfg, s, OpForwarded(f.inflight.node, f.inflight.generation, f.inflight.counter), t, result)
        && g == AfterRemoval(f, result);
      ForwardedIsIt(cfg, s, f.index, f.inflight, t, result);
    }
  }

  /** The forwarder is at work: not failed, not paused, and the radio does not need the loop. */
  predicate AtWork(f: Forward, e: Inputs) { (f.state.Idle? || f.state.Waiting?) && !f.paused && e.quiet }

  /** A forwarder that is not at work does nothing. */
  lemma RestsUnless(cfg: Config, f: Forward, l: Line, s: State, e: Inputs, g: Forward, k: Line, t: State)
    requires |l.meant| == |l.acks| && Polled(cfg, f, l, s, e, g, k, t) && !AtWork(f, e)
    ensures g == f && k == l && t == s
  {
    hide WaitingPoll, Publishes;
  }

  /**
   * A poll that finds no acknowledgement leaves the publication in flight exactly when the broker is
   * connected and less than 15 s passed since it was published, across a wrap of the clock. Otherwise
   * it is given up, counted, and tried again no earlier than in 5 s.
   */
  lemma WaitsIff(cfg: Config, f: Forward, l: Line, s: State, e: Inputs, g: Forward, k: Line, t: State, sent: nat,
                 time: nat)
    requires |l.meant| == |l.acks| && Polled(cfg, f, l, s, e, g, k, t)
    requires f.state.Waiting? && AtWork(f, e) && f.message !in l.acks
    requires f.sentAt == Reading32(sent) && e.now == Reading32(time) && sent <= time < sent + 0x1_0000_0000
    ensures t == s && k == l.(acks := [], meant := [])
    ensures g.state.Waiting? <==> e.connected && time < sent + 15000
    ensures g.state.Waiting? ==> g == f
    ensures !g.state.Waiting? ==>
      g == f.(state := Idle, retries := f.retries + 1, delayed := true, retryAt := Reading32(time + 5000))
  {
    hide Polled, WaitingPoll, Elapsed;
    NoneTaken(cfg, f, l, s, e, g, k, t);
    ElapsedTrue(sent, time);
    Later(time, 5000);
  }

  /** The same by the readings of the clock. */
  lemma NoneTaken(cfg: Config, f: Forward, l: Line, s: State, e: Inputs, g: Forward, k: Line, t: State)
    requires |l.meant| == |l.acks| && Polled(cfg, f, l, s, e, g, k, t)
    requires f.state.Waiting? && AtWork(f, e) && f.message !in l.acks
    ensures t == s && k == l.(acks := [], meant := [])
    ensures g == if e.connected && Elapsed(e.now, f.sentAt) < 15000 then f
                 else f.(state := Idle, retries := f.retries + 1, delayed := true,
                         retryAt := (e.now + 5000) % 0x1_0000_0000)
  {
    hide Publishes, Followed, TooEarly, Elapsed;
    assert FirstAck(l.acks, f.message) == None;
    assert l.acks[|l.acks|..] == [] && l.meant[|l.acks|..] == [];
  }

  lemma Later(time: nat, delay: nat)
    ensures (Reading32(time) + delay) % 0x1_0000_0000 == Reading32(time + delay)
  {
  }

  /** While a retry is due only later a poll does nothing, across a wrap of the clock. */
  lemma DelayedIff(from: nat, time: nat)
    requires from <= time < from + 5000 + 0x8000_0000
    ensures TooEarly(Reading32(time), Reading32(from + 5000)) <==> time < from + 5000
  {
  }

  /** A sample is published exactly when one is queued, it can be formatted and the client takes it. */
  lemma PublishLaw(cfg: Config, f: Forward, l: Line, s: State, e: Inputs, g: Forward, k: Line, t: State)
    requires SystemInv(cfg, s.m, s.d, s.h) && s.m.health == Ready && cfg.role.Receiver?
    requires |l.meant| == |l.acks| && Polled(cfg, f, l, s, e, g, k, t)
    requires f.state.Idle? && AtWork(f, e)
    ensures t == s
    ensures f.delayed && TooEarly(e.now, f.retryAt) ==> g == f && k == l
    ensures !(f.delayed && TooEarly(e.now, f.retryAt)) ==>
      var due := f.(delayed := false);
      if !e.connected || s.m.head >= |s.h.log| then g == due && k == l
      else if !e.fits then g == due.(state := ForwardState.Failed) && k == l
      else if e.id <= 0 then g == f.(delayed := true, retryAt := (e.now + 5000) % 0x1_0000_0000) && k == l
      else
        var q := SampleOf(cfg.c, s.h.log[s.m.head]);
        && g == due.(state := Waiting, inflight := q, message := e.id, sentAt := e.now, attempt := |l.issued|,
                     index := s.m.head)
        && k == l.(issued := l.issued + [Issue(e.id, Publication(f.source, q))],
                   unanswered := l.unanswered + {|l.issued|})
  {
    hide SystemInv, Peek, Open, WaitingPoll;
    PeekLaw(cfg, s);
  }

  /** No write failed in a removal. */
  ghost predicate PolledWhole(cfg: Config, f: Forward, l: Line, s: State, e: Inputs, g: Forward, t: State)
  {
    Due(f, l, e) ==> exists result ::
      && Faultless(cfg, s, OpForwarded(f.inflight.node, f.inflight.generation, f.inflight.counter), t, result)
      && g == AfterRemoval(f, result)
  }

  /**
   * Once the id in flight was acknowledged the next poll ends the flight and, when the front still has the
   * identity, removes it and counts it, unless the write fails.
   */
  lemma AcknowledgedLeaves(cfg: Config, f: Forward, l: Line, s: State, e: Inputs, g: Forward, k: Line, t: State)
    requires SystemInv(cfg, s.m, s.d, s.h) && cfg.role.Receiver? && s.m.health == Ready
    requires LineInv(l) && InFlight(cfg.c, f, l, s.h) && |l.meant| == |l.acks|
    requires Polled(cfg, f, l, s, e, g, k, t) && PolledWhole(cfg, f, l, s, e, g, t)
    requires f.state.Waiting? && AtWork(f, e) && f.message in l.acks
    ensures g.state.Idle? && |k.acks| < |l.acks|
    ensures FrontHas(s, f.index) ==> g.forwarded == f.forwarded + 1 && t.m.head == s.m.head + 1 && t.m.health == Ready
    ensures !FrontHas(s, f.index) ==> g.forwarded == f.forwarded && t == s
  {
    hide SystemInv, Followed, Faultless, SampleOf, TooEarly, Publishes, LineInv, FrontHas, Polled;
    RemovedIff(cfg, f, l, s, e, g, k, t);
    var result :|
      && Faultless(cfg, s, OpForwarded(f.inflight.node, f.inflight.generation, f.inflight.counter), t, result)
      && g == AfterRemoval(f, result);
    RemovalResult(cfg, f, s, t, result);
  }

  lemma RemovalResult(cfg: Config, f: Forward, s: State, t: State, result: Result)
    requires SystemInv(cfg, s.m, s.d, s.h) && cfg.role.Receiver? && s.m.health == Ready
    requires f.index < |s.h.log| && f.inflight == SampleOf(cfg.c, s.h.log[f.index])
    requires Faultless(cfg, s, OpForwarded(f.inflight.node, f.inflight.generation, f.inflight.counter), t, result)
    ensures result == if FrontHas(s, f.index) then Ok else Conflict
    ensures !FrontHas(s, f.index) ==> t == s
  {
    hide SystemInv, Faultless, Open;
    ForwardedLaw(cfg, s, f.inflight.node, f.inflight.generation, f.inflight.counter, t, result);
  }

  lemma PublishedOnly(cfg: Config, f: Forward, l: Line, s: State, e: Inputs)
    ensures Publishes(cfg, f, l, s, e).0.forwarded == f.forwarded
  {
    hide Peek;
  }

  /** The publications of the sample in flight. */
  ghost function OfInflight(f: Forward, l: Line): set<nat>
  {
    set n | 0 <= n < |l.issued| && l.issued[n].what.sample == f.inflight
  }

  /**
   * While a publication is in flight, whatever the broker acknowledges, the poll that takes an
   * acknowledgement takes that of this very publication exactly when no other one can be
   * acknowledged under its id before, and that of some publication of its sample exactly when none of
   * another sample can. Without an id given again it always is the very one.
   */
  lemma AcknowledgedIff(c: Crypto, f: Forward, l: Line, h: History)
    requires LineInv(l) && InFlight(c, f, l, h) && f.state.Waiting?
    ensures OnlyThese(l, f.message, {f.attempt})
       <==> forall ns | MayAnswer(l, ns) :: TakesOneOf(AnsweredAll(l, ns), f.message, {f.attempt})
    ensures OnlyThese(l, f.message, OfInflight(f, l))
       <==> forall ns | MayAnswer(l, ns) :: TakesOneOf(AnsweredAll(l, ns), f.message, OfInflight(f, l))
    ensures (forall n | 0 <= n < |l.issued| && l.issued[n].id == f.message :: n == f.attempt) ==>
      OnlyThese(l, f.message, {f.attempt})
  {
    hide MayAnswer, TakesOneOf, OnlyThese, LineInv, SampleOf, AnsweredAll;
    TakenIff(l, f.message, {f.attempt});
    TakenIff(l, f.message, OfInflight(f, l));
    if forall n | 0 <= n < |l.issued| && l.issued[n].id == f.message :: n == f.attempt {
      OnceIsOnly(l, f.message, f.attempt);
    }
  }

  lemma OnceIsOnly(l: Line, id: int, n: nat)
    requires LineInv(l) && forall i | 0 <= i < |l.issued| && l.issued[i].id == id :: i == n
    ensures OnlyThese(l, id, {n})
  {
  }

  lemma PublishKeeps(cfg: Config, f: Forward, l: Line, s: State, e: Inputs)
    requires SystemInv(cfg, s.m, s.d, s.h) && cfg.role.Receiver? && LineInv(l) && !f.state.Waiting?
    ensures
      var (g, k) := Publishes(cfg, f, l, s, e);
      LineInv(k) && InFlight(cfg.c, g, k, s.h)
  {
    hide SystemInv, SampleOf, Peek, LineInv;
    LineKept(l);
    PeekedHealthy(cfg, s);
    if Peek(cfg, s.m, s.d).Some? {
      FrontIsLogged(cfg, s);
    }
  }

  lemma PeekedHealthy(cfg: Config, s: State)
    ensures Peek(cfg, s.m, s.d).Some? ==> s.m.health == Ready
  {
    hide FrontHealth, Open;
  }

  lemma PolledKeeps(cfg: Config, f: Forward, l: Line, s: State, e: Inputs, g: Forward, k: Line, t: State)
    requires SystemInv(cfg, s.m, s.d, s.h) && cfg.role.Receiver? && LineInv(l) && InFlight(cfg.c, f, l, s.h)
    requires Polled(cfg, f, l, s, e, g, k, t)
    ensures LineInv(k) && InFlight(cfg.c, g, k, t.h)
  {
    hide SystemInv, Followed, SampleOf, TooEarly, Publishes;
    LineKept(l);
    RemovedIff(cfg, f, l, s, e, g, k, t);
    if Polling(f, e) && !f.state.Waiting? {
      PublishKeeps(cfg, f.(delayed := false), l, s, e);
    }
    hide LineInv;
  }

  function Paused(f: Forward): Forward { f.(state := if f.state.Waiting? then Idle else f.state, paused := true) }

  /** Under a new identity; what was in flight is abandoned. */
  function Switched(f: Forward, identity: string): Forward
  {
    f.(source := identity, state := if f.state.Waiting? then Idle else f.state, delayed := false, paused := false)
  }

  // ------------------------------------------------------------------ the object

  class Forwarder {
    const publisher: Publisher
    const store: PersistentStore
    var source: string
    var state: ForwardState
    var inflight: QueuedSample
    var message: int
    var sentAt: u32
    var retryAt: u32
    var forwarded: nat
    var retries: nat
    var delayed: bool
    var paused: bool
    /** Which publication is in flight, and where its sample stands among the accepted ones. */
    ghost var attempt: nat
    ghost var index: nat

    ghost function Now(): Forward
      reads this
    {
      Forward(source, state, inflight, message, sentAt, retryAt, forwarded, retries, delayed, paused, attempt, index)
    }

    ghost predicate Valid()
      reads this, publisher, store, store.records
    {
      && store.Valid() && store.cfg.role.Receiver? && publisher.Valid()
      && InFlight(store.cfg.c, Now(), publisher.Book(), store.history)
    }

    constructor (p: Publisher, s: PersistentStore, identity: Option<string>)
      requires p.Valid() && s.Valid() && s.cfg.role.Receiver?
      ensures Valid() && publisher == p && store == s
      ensures state == if identity.Some? then Idle else ForwardState.Failed
    {
      publisher, store := p, s;
      source := if identity.Some? then identity.value else "";
      state := if identity.Some? then Idle else ForwardState.Failed;
      inflight := QueuedSample(0, 0, 0, NO_DATA, UNKNOWN_LINK);
      message, sentAt, retryAt, forwarded, retries, delayed, paused := 0, 0, 0, 0, 0, false, false;
      attempt, index := 0, 0;
    }

    method Pause()
      requires Valid()
      modifies this`state, this`paused
      ensures Valid() && Now() == Paused(old(Now()))
    {
      hide SystemInv, StoreBytes.View, SampleOf;
      if state.Waiting? {
        state := Idle;
      }
      paused := true;
    }

    /** None stands for an invalid identity. */
    method SetSource(identity: Option<string>) returns (ok: bool)
      requires Valid()
      modifies this`source, this`state, this`paused, this`delayed
      ensures Valid() && ok == identity.Some?
      ensures Now() == if ok then Switched(old(Now()), identity.value) else old(Now())
    {
      hide SystemInv, StoreBytes.View, SampleOf;
      if identity.None? {
        return false;
      }
      source := identity.value;
      if state.Waiting? {
        state := Idle;
      }
      delayed, paused := false, false;
      return true;
    }

    method RetryLater(now: u32)
      modifies this`delayed, this`retryAt
      ensures Now() == Retrying(old(Now()), now)
    {
      delayed := true;
      retryAt := (now + RETRY_DELAY_MS) % 0x1_0000_0000;
    }

    /** Pops acknowledged ids up to the first one of the publication in flight. */
    method FindAck() returns (found: bool)
      requires Valid() && state.Waiting?
      modifies publisher`acks, publisher`meant
      ensures Valid()
      ensures
        var first := FirstAck(old(publisher.acks), message);
        && found == first.Some?
        && publisher.Book() == Popped(old(publisher.Book()), if found then first.value + 1 else |old(publisher.acks)|)
    {
      hide SystemInv, StoreBytes.View, SampleOf;
      ghost var l := publisher.Book();
      ghost var k := 0;
      while publisher.acks != []
        invariant Valid() && k <= |l.acks| == |l.meant| && publisher.Book() == Popped(l, k)
        invariant forall j | 0 <= j < k :: l.acks[j] != message
        decreases |publisher.acks|
      {
        var id := publisher.Acknowledged();
        assert l.acks[k..][1..] == l.acks[k + 1..] && l.meant[k..][1..] == l.meant[k + 1..];
        if id.value == message {
          return true;
        }
        k := k + 1;
      }
      return false;
    }

    /** The publication in flight was acknowledged: its sample leaves the queue, if it is still there. */
    method Remove() returns (ghost result: Result)
      requires Valid() && state.Waiting?
      modifies this`state, this`forwarded, store, store.records
      ensures Valid() && Now() == AfterRemoval(old(Now()), result)
      ensures Followed(store.cfg, old(store.Now()), OpForwarded(inflight.node, inflight.generation, inflight.counter),
                       store.Now(), result)
      ensures store.records.faults == old(store.records.faults) ==>
        Faultless(store.cfg, old(store.Now()), OpForwarded(inflight.node, inflight.generation, inflight.counter),
                  store.Now(), result)
    {
      hide SystemInv, Followed, Faultless, StoreBytes.View, SampleOf;
      var r := store.Forwarded(inflight.node, inflight.generation, inflight.counter);
      result := r;
      if r == StorageError {
        state := ForwardState.Failed;
        return;
      }
      if r == Ok {
        forwarded := forwarded + 1;
      }
      state := Idle;
    }

    /** The front read back from storage; a store under its invariant is not disturbed. */
    method Front() returns (front: Option<QueuedSample>)
      requires store.Valid() && store.cfg.role.Receiver?
      modifies store`health
      ensures store.Valid() && store.Now() == old(store.Now())
      ensures front == Peek(store.cfg, store.Memory(), store.Durable())
    {
      hide SystemInv, StoreBytes.View, Peek, PeekHealth;
      PeekNeverBreaks(store.cfg, store.Now());
      front := store.PeekFront();
    }

    lemma PublishKeepsAt(e: Inputs)
      requires Valid() && !state.Waiting?
      ensures
        var (g, k) := Publishes(store.cfg, Now(), publisher.Book(), store.Now(), e);
        LineInv(k) && InFlight(store.cfg.c, g, k, store.history)
      ensures Peek(store.cfg, store.Memory(), store.Durable()).Some? ==> store.health == Ready
    {
      hide SystemInv, StoreBytes.View, Publishes, LineInv, InFlight, Peek;
      PublishKeeps(store.cfg, Now(), publisher.Book(), store.Now(), e);
      PeekedHealthy(store.cfg, store.Now());
    }

    /** Publishes the front of the queue; `fits` says whether topic and payload could be formatted. */
    method PublishFront(e: Inputs)
      requires Valid() && state.Idle?
      modifies this`state, this`delayed, this`retryAt, this`inflight, this`message, this`sentAt, this`attempt,
        this`index, publisher`issued, publisher`unanswered, store`health
      ensures Valid() && store.Now() == old(store.Now())
      ensures (Now(), publisher.Book()) == Publishes(store.cfg, old(Now()), old(publisher.Book()), old(store.Now()), e)
    {
      hide SystemInv, StoreBytes.View, SampleOf, Peek, LineInv, InFlight, PersistentStore.Valid, PublishesSample;
      PublishKeepsAt(e);
      var front := Front();
      if front.None? {
        if store.health != Ready {
          state := ForwardState.Failed;
        }
        return;
      }
      PublishSample(front.value, store.head, e);
    }

    method PublishSample(q: QueuedSample, ghost head: nat, e: Inputs)
      requires publisher.Valid()
      modifies this`state, this`delayed, this`retryAt, this`inflight, this`message, this`sentAt, this`attempt,
        this`index, publisher`issued, publisher`unanswered
      ensures (Now(), publisher.Book()) == PublishesSample(old(Now()), old(publisher.Book()), q, head, e)
    {
      hide LineInv;
      if !e.fits {
        state := ForwardState.Failed;
        return;
      }
      ghost var serial := |publisher.issued|;
      var given := publisher.Publish(Publication(source, q), e.id);
      if given <= 0 {
        RetryLater(e.now);
        return;
      }
      inflight, message, sentAt, state := q, given, e.now, Waiting;
      attempt, index := serial, head;
    }

    /** One poll: what `Polled` says, whatever becomes of the store's write. */
    method Poll(e: Inputs)
      requires Valid()
      modifies this, publisher, store, store.records
      ensures Valid()
      ensures Polled(store.cfg, old(Now()), old(publisher.Book()), old(store.Now()), e, Now(), publisher.Book(),
                     store.Now())
      ensures store.records.faults == old(store.records.faults) ==>
        PolledWhole(store.cfg, old(Now()), old(publisher.Book()), old(store.Now()), e, Now(), store.Now())
    {
      hide SystemInv, Followed, Faultless, StoreBytes.View, SampleOf, Step, Peek;
      if state.Failed? || !e.quiet || paused {
        return;
      }
      if state.Waiting? {
        PollWaiting(e);
        return;
      }
      if delayed && (e.now - retryAt) % 0x1_0000_0000 >= 0x8000_0000 {
        return;
      }
      delayed := false;
      if !e.connected {
        return;
      }
      PublishFront(e);
    }

    method PollWaiting(e: Inputs)
      requires Valid() && state.Waiting?
      modifies this, publisher`acks, publisher`meant, store, store.records
      ensures Valid()
      ensures WaitingPoll(store.cfg, old(Now()), old(publisher.Book()), old(store.Now()), e,
                          Now(), publisher.Book(), store.Now())
      ensures store.records.faults == old(store.records.faults) ==>
        PolledWhole(store.cfg, old(Now()), old(publisher.Book()), old(store.Now()), e, Now(), store.Now())
    {
      hide SystemInv, Followed, Faultless, StoreBytes.View, SampleOf;
      var found := FindAck();
      if found {
        ghost var result := Remove();
        return;
      }
      if !e.connected || Elapsed(e.now, sentAt) >= ACK_TIMEOUT_MS {
        retries := retries + 1;
        state := Idle;
        RetryLater(e.now);
      }
    }
  }

  lemma PeekNeverBreaks(cfg: Config, s: State)
    requires SystemInv(cfg, s.m, s.d, s.h) && cfg.role.Receiver?
    ensures PeekHealth(cfg, s.m, s.d) == s.m.health
  {
    if s.m.health == Ready && Queued(s.m) != 0 {
      assert s.m.head <= s.m.tail;
      FrontIs(cfg, s.m, s.d, s.h);
    }
  }

  /** Whatever the store does in between, the sample in flight stays where it was in the log. */
  lemma StaysInFlight(cfg: Config, ss: seq<State>, es: seq<Event>, i: nat, j: nat, index: nat, q: QueuedSample)
    requires StoreRuns.Run(cfg, ss, es) && i <= j < |ss|
    requires index < |ss[i].h.log| && q == SampleOf(cfg.c, ss[i].h.log[index])
    ensures index < |ss[j].h.log| && q == SampleOf(cfg.c, ss[j].h.log[index])
  {
    LogGrows(cfg, ss, es, i, j);
  }
}
