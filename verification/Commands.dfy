// Management commands (cajui_command.cpp): what a command does when it runs, the pending accept
// and its one final answer.
module Commands {
  import opened Protocol
  import opened Records
  import opened Store
  import opened StoreOps
  import opened StoreRuns
  import opened StoreServing
  import opened StoreObject
  import opened Pairing
  import opened PairingStore
  import opened HostPairing
  import opened PairingLaws
  import opened StoreLaws
  import opened CommandLedger
  import opened Clocks

  const COMMAND_DEADLINE_MS := 5000

  datatype CommandType = PairingOpen | PairingAccept | PairingClose | NodeRevoke

  /** A parsed payload; one without a usable id cannot be answered. */
  datatype Parsed =
    | Unreadable
    | BadShape(id: Id)
    | BadType(id: Id)
    | Fine(id: Id, kind: CommandType, node: u64)

  /** Why a new command is refused before it runs. */
  function Early(parsed: Parsed, receivedAt: u32, now: u32): Option<Reason>
    requires !parsed.Unreadable?
  {
    match parsed
    case BadShape(_) => Some(BadCommand)
    case BadType(_) => Some(UnsupportedCommand)
    case Fine(_, _, _) => if Elapsed(now, receivedAt) > COMMAND_DEADLINE_MS then Some(TooLate) else None
  }

  function ReasonFor(r: Result): Reason
  {
    match r
    case Invalid => WindowClosed
    case NotFound => NotRequested
    case Conflict => KeyConflict
    case Full => NoSlot
    case StorageError => StorageFault
    case _ => OtherFault
  }

  /**
   * What is refused before it runs, and why: a payload without the right shape or type, and a
   * well-formed one more than five seconds of true time after it arrived, across a wrap of the clock.
   */
  lemma EarlyLaw(parsed: Parsed, arrived: nat, time: nat)
    requires !parsed.Unreadable? && arrived <= time < arrived + 0x1_0000_0000
    ensures
      Early(parsed, Reading32(arrived), Reading32(time)) ==
        match parsed
        case BadShape(_) => Some(BadCommand)
        case BadType(_) => Some(UnsupportedCommand)
        case Fine(_, _, _) => if time <= arrived + 5000 then None else Some(TooLate)
  {
    ElapsedTrue(arrived, time);
  }

  /** The host's answer to an accept and the reason told for it, cause by cause. */
  ghost predicate AcceptCauses(h: Host, x: Agreement, c: Crypto, m: Mem, device: u64, node: u64, now: u32, draw: Draw)
  {
    var (t, result) := AfterAccept(h, x, c, m, FreeSlotsIn(m), device, node, now, draw);
    && (!InWindow(h, now) ==> result != Ok && ReasonFor(result) == WindowClosed)
    && (InWindow(h, now) && (forall i: nat :: !ListedAt(h.candidates, node, i)) ==>
          result != Ok && ReasonFor(result) == NotRequested)
    && (InWindow(h, now) ==> forall i: nat | ListedAt(h.candidates, node, i) ::
          var cand := h.candidates[i];
          if cand.conflict then result != Ok && ReasonFor(result) == KeyConflict
          else if FreeSlotsIn(m) == 0 then
            result != Ok && ReasonFor(result) == if m.health == Ready then NoSlot else StorageFault
          else if !Draws(x, m, draw) || !SecretsAgree(x, device, cand, draw) then
            result != Ok && ReasonFor(result) == OtherFault
          else result == Ok && OffersTo(x, c, m, device, cand, draw, t))
  }

  lemma ReasonLaw(h: Host, x: Agreement, c: Crypto, m: Mem, device: u64, node: u64, now: u32, draw: Draw)
    requires Distinct(h.candidates)
    ensures AcceptCauses(h, x, c, m, device, node, now, draw)
  {
    AcceptLaw(h, x, c, m, FreeSlotsIn(m), device, node, now, draw);
    hide AfterAccept, FreeSlotsIn, InWindow, Draws, SecretsAgree, OffersTo;
  }

  /**
   * What an accept does: it is told why it is refused, cause by cause; otherwise the node is
   * offered a binding on the terms it asked for, and the command awaits its own final answer.
   */
  ghost predicate AcceptTold(h: Host, g: Host, x: Agreement, c: Crypto, m: Mem, receiver: u64, l: Ledger, t: Ledger,
                             device: u64, id: Id, node: u64, awaited: u64, now: u32, draw: Draw)
  {
    if !InWindow(h, now) then ToldFirst(l, t, device, id, Verdict(Rejected, WindowClosed))
    else if forall i: nat :: !ListedAt(h.candidates, node, i) then
      ToldFirst(l, t, device, id, Verdict(Rejected, NotRequested))
    else
      forall i: nat | ListedAt(h.candidates, node, i) ::
        var cand := h.candidates[i];
        if cand.conflict then ToldFirst(l, t, device, id, Verdict(Rejected, KeyConflict))
        else if FreeSlotsIn(m) == 0 then
          ToldFirst(l, t, device, id, Verdict(Rejected, if m.health == Ready then NoSlot else StorageFault))
        else if !Draws(x, m, draw) || !SecretsAgree(x, receiver, cand, draw) then
          ToldFirst(l, t, device, id, Verdict(Rejected, OtherFault))
        else OffersTo(x, c, m, receiver, cand, draw, g) && ToldPending(l, t, device, id) && awaited == node
  }

  lemma CausesTold(h: Host, g: Host, x: Agreement, c: Crypto, m: Mem, receiver: u64, l: Ledger, t: Ledger,
                   device: u64, id: Id, node: u64, awaited: u64, now: u32, draw: Draw, result: Result)
    requires AcceptCauses(h, x, c, m, receiver, node, now, draw)
    requires (g, result) == AfterAccept(h, x, c, m, FreeSlotsIn(m), receiver, node, now, draw)
    requires result != Ok ==> ToldFirst(l, t, device, id, Verdict(Rejected, ReasonFor(result)))
    requires result == Ok ==> ToldPending(l, t, device, id) && awaited == node
    ensures AcceptTold(h, g, x, c, m, receiver, l, t, device, id, node, awaited, now, draw)
  {
    hide AfterAccept, FreeSlotsIn, ReasonFor, InWindow, Draws, SecretsAgree, OffersTo, ToldFirst, ToldPending;
  }

  // ------------------------------------------------------------------ the pending accept

  predicate InConflict(cs: seq<Candidate>, node: u64)
  {
    exists i :: 0 <= i < |cs| && cs[i].node == node && cs[i].conflict
  }

  lemma InConflictIff(cs: seq<Candidate>, node: u64)
    ensures InConflict(cs, node) <==> exists i: nat :: ListedAt(cs, node, i) && cs[i].conflict
  {
    if InConflict(cs, node) {
      var i :| 0 <= i < |cs| && cs[i].node == node && cs[i].conflict;
      assert ListedAt(cs, node, i);
    }
  }

  /** What the host's state says of an accept of the node that is still pending. */
  function Outcome(h: Host, node: u64): Option<Verdict>
  {
    if h.paired == node then Some(Verdict(Applied, NoReason))
    else if h.phase.Closed? then Some(Verdict(Rejected, WindowClosed))
    else if h.offer.node != node then
      Some(Verdict(Rejected, if InConflict(h.candidates, node) then KeyConflict else Superseded))
    else None
  }

  /**
   * What a poll tells, by the host's state after the window was checked: nothing while the
   * node is still under offer, and else, once, why its accept ended.
   */
  ghost predicate PollTold(h: Host, awaited: u64, l: Ledger, t: Ledger)
  {
    if l.ring.pending.None? || (h.paired != awaited && !h.phase.Closed? && h.offer.node == awaited) then t == l
    else if h.paired == awaited then ToldFinal(l, t, Verdict(Applied, NoReason))
    else if h.phase.Closed? then ToldFinal(l, t, Verdict(Rejected, WindowClosed))
    else if exists i: nat :: ListedAt(h.candidates, awaited, i) && h.candidates[i].conflict then
      ToldFinal(l, t, Verdict(Rejected, KeyConflict))
    else ToldFinal(l, t, Verdict(Rejected, Superseded))
  }

  // ------------------------------------------------------------------ what the other commands do

  /** A command for another device: transmitters have none, and an unlisted one is not known. */
  ghost predicate ForeignTold(known: bool, l: Ledger, t: Ledger, device: u64, id: Id)
  {
    ToldFirst(l, t, device, id, Verdict(Rejected, if known then UnsupportedCommand else UnknownNode))
  }

  /** Opening starts a window with nothing left of an earlier one; an open window is left as it is. */
  ghost predicate OpenTold(h: Host, g: Host, l: Ledger, t: Ledger, device: u64, id: Id, now: u32)
  {
    && ToldFirst(l, t, device, id, Verdict(Applied, NoReason))
    && (if h.phase.Closed? then
          && g.phase.Open? && g.openedAt == now && g.candidates == [] && g.offerFrame == [] && g.key == ZERO16
          && g.paired == 0 && g.last == NOT_COMPLETED
        else g == h)
  }

  /** Closing ends the window and, with it, the pending accept. */
  ghost predicate CloseTold(h: Host, g: Host, l: Ledger, t: Ledger, device: u64, id: Id, awaited: u64)
  {
    && g.phase.Closed? && g.candidates == [] && g.offerFrame == [] && g.key == ZERO16
    && g.paired == h.paired && g.last == h.last && t.ring.pending.None?
    && var first := l.told + [Told(device, id, Verdict(Applied, NoReason), First(|l.runs|))];
       if l.ring.pending.Some? && l.serial < |l.runs| then
         t.told == first + [Told(l.runs[l.serial].device, l.runs[l.serial].id,
           if h.paired == awaited then Verdict(Applied, NoReason) else Verdict(Rejected, WindowClosed),
           Final(l.serial))]
       else t.told == first
  }

  lemma ClosesTold(h: Host, g: Host, l: Ledger, mid: Ledger, t: Ledger, device: u64, id: Id, awaited: u64, now: u32)
    requires g == Polled(Shut(h), now) && LedgerInv(l)
    requires ToldFirst(l, mid, device, id, Verdict(Applied, NoReason))
    requires mid.ring.pending == l.ring.pending && mid.serial == l.serial
    requires PollTold(g, awaited, mid, t)
    ensures CloseTold(h, g, l, t, device, id, awaited)
  {
    InvShape(l);
    hide LedgerInv;
  }

  lemma ShutStays(h: Host, now: u32)
    ensures Polled(Shut(h), now) == Shut(h)
  {
  }

  function PollMoves(pending: Option<nat>, h: Host, node: u64): seq<Move>
  {
    if pending.None? || Outcome(h, node).None? then [] else [Finish(Outcome(h, node).value)]
  }

  /** An accept that succeeded offers its node, which is no longer the paired one. */
  lemma AcceptedIsOffered(h: Host, x: Agreement, c: Crypto, m: Mem, free: nat, device: u64, node: u64, now: u32,
                          draw: Draw)
    ensures
      var (t, result) := AfterAccept(h, x, c, m, free, device, node, now, draw);
      result == Ok ==> node != 0 && t.paired != node && t.offer.node == node && t.phase.Offered?
  {
    hide KeyFor, BuildOffer;
    var (t, result) := AfterAccept(h, x, c, m, free, device, node, now, draw);
    if result == Ok {
      OfferFits(c, t.offer, t.key, t.offerFrame);
    }
  }

  /** A frame confirmed the accept of the node: under the accepted key, and its binding was then in service. */
  ghost predicate ConfirmedBy(x: Agreement, c: Crypto, device: u64, p: Proof, node: u64)
  {
    var o := p.host.offer;
    && o.node == node
    && React(c, device, p.host, p.frame, p.rssi, p.at).Confirmed?
    && KeyFor(x, p.pin.private, o, p.pin.public) == Some(p.host.key)
    && p.frame == TaggedFrame(c, Confirm, o.network, node, o.nonce, p.host.key)
    && InService(p.m, CredentialOf(o, p.host.key))
  }

  // ------------------------------------------------------------------ revocation

  /** The effect of a revocation that reported Ok. */
  lemma RevokedEntries(cfg: Config, s: State, i: nat, t: State)
    requires SystemInv(cfg, s.m, s.d, s.h) && s.m.health == Ready && i < BINDING_CAPACITY
    requires !s.m.registry.entries[i].state.Empty? && !s.m.registry.entries[i].state.Revoked?
    requires Followed(cfg, s, OpRevoke(s.m.registry.entries[i].node, s.m.registry.entries[i].generation), t, Ok)
    ensures t.m.health == Ready && t.m.registry.revision == s.m.registry.revision + 1
    ensures t.m.registry.entries == s.m.registry.entries[i := s.m.registry.entries[i].(state := Revoked)]
  {
    var e := s.m.registry.entries[i];
    ActivatePlanned(cfg, s, e.node, e.generation);
    var found := Find(s.m.registry.entries, e.node, e.generation, BINDING_CAPACITY);
    OneSlotEach(cfg, s.m, s.d, s.h, i, found.value);
    hide SystemInv;
  }

  /** Revoking a listed enrollment succeeds when no write fails and the revision can grow. */
  lemma RevokeSucceeds(cfg: Config, s: State, i: nat, t: State, result: Result)
    requires SystemInv(cfg, s.m, s.d, s.h) && s.m.health == Ready && i < BINDING_CAPACITY
    requires !s.m.registry.entries[i].state.Empty? && !s.m.registry.entries[i].state.Revoked?
    requires Faultless(cfg, s, OpRevoke(s.m.registry.entries[i].node, s.m.registry.entries[i].generation), t, result)
    requires s.m.registry.revision != UINT64_MAX
    ensures result == Ok
  {
    hide SystemInv, Faultless;
    RevokeLaw(cfg, s, s.m.registry.entries[i].node, s.m.registry.entries[i].generation, t, result, i);
  }

  lemma RevokeResults(cfg: Config, s: State, i: nat, t: State, result: Result)
    requires SystemInv(cfg, s.m, s.d, s.h) && s.m.health == Ready && i < BINDING_CAPACITY
    requires !s.m.registry.entries[i].state.Empty?
    requires Followed(cfg, s, OpRevoke(s.m.registry.entries[i].node, s.m.registry.entries[i].generation), t, result)
    ensures result == Ok || result == StorageError
  {
    var e := s.m.registry.entries[i];
    ActivatePlanned(cfg, s, e.node, e.generation);
    var found := Find(s.m.registry.entries, e.node, e.generation, BINDING_CAPACITY);
    OneSlotEach(cfg, s.m, s.d, s.h, i, found.value);
    hide SystemInv;
  }

  predicate Lists(es: Entries, node: u64)
  {
    exists i :: 0 <= i < BINDING_CAPACITY && !es[i].state.Empty? && es[i].node == node
  }

  predicate Gone(es: Entries, node: u64)
  {
    forall i | 0 <= i < BINDING_CAPACITY && es[i].node == node :: es[i].state.Empty? || es[i].state.Revoked?
  }

  /** The first `n` entries after the node's were revoked: all others are as they were. */
  predicate OnlyRevoked(was: Entries, es: Entries, node: u64, n: nat)
  {
    forall i | 0 <= i < BINDING_CAPACITY ::
      es[i] == if i < n && was[i].node == node && !was[i].state.Empty? then was[i].(state := Revoked) else was[i]
  }

  // ------------------------------------------------------------------ what an execution does

  /** The runner and what it works on, with how many record writes have failed. */
  datatype Scene = Scene(host: Host, store: State, book: Ledger, awaited: u64, faults: nat)

  /** No record write failed, and the registry could be written once for every enrollment. */
  ghost predicate Undisturbed(s: Scene, t: Scene)
  {
    t.faults == s.faults && s.store.m.registry.revision <= UINT64_MAX - BINDING_CAPACITY
  }

  ghost predicate Enrolled(s: State, node: u64) { s.m.health == Ready && Lists(s.m.registry.entries, node) }

  /** What a revocation told, and what it left in the store. */
  ghost predicate RevokeActs(s: Scene, t: Scene, device: u64, id: Id, node: u64)
  {
    if !Enrolled(s.store, node) then
      ToldFirst(s.book, t.book, device, id, Verdict(Rejected, UnknownNode)) && t.store == s.store
    else
      || (&& ToldFirst(s.book, t.book, device, id, Verdict(Applied, NoReason)) && t.store.m.health == Ready
          && OnlyRevoked(s.store.m.registry.entries, t.store.m.registry.entries, node, BINDING_CAPACITY))
      || (!Undisturbed(s, t) && ToldFirst(s.book, t.book, device, id, Verdict(Rejected, StorageFault)))
  }

  /** What running a new command does, in the terms of what is told and of the window, the offer and the store. */
  ghost predicate Acts(cfg: Config, x: Agreement, s: Scene, t: Scene, device: u64, id: Id, kind: CommandType,
                       node: u64, now: u32, draw: Draw)
  {
    if device != cfg.device then
      t.host == s.host && t.store == s.store && ForeignTold(Enrolled(s.store, device), s.book, t.book, device, id)
    else match kind
    case PairingOpen => t.store == s.store && OpenTold(s.host, t.host, s.book, t.book, device, id, now)
    case PairingClose => t.store == s.store && CloseTold(s.host, t.host, s.book, t.book, device, id, s.awaited)
    case NodeRevoke => t.host == s.host && RevokeActs(s, t, device, id, node)
    case PairingAccept =>
      && t.store == s.store
      && AcceptTold(s.host, t.host, x, cfg.c, s.store.m, cfg.device, s.book, t.book, device, id, node, t.awaited, now,
                    draw)
  }

  /** The command is told why it is refused, and nothing else happens. */
  ghost predicate Refuses(s: Scene, t: Scene, device: u64, id: Id, reason: Reason)
  {
    ToldFirst(s.book, t.book, device, id, Verdict(Rejected, reason)) && t == s.(book := t.book)
  }

  /**
   * What a payload not seen before does: nothing when it has no usable id; told why, when it is
   * malformed or came more than five seconds ago; and otherwise what its command does.
   */
  ghost predicate Does(cfg: Config, x: Agreement, s: Scene, t: Scene, device: u64, parsed: Parsed, receivedAt: u32,
                       now: u32, draw: Draw)
  {
    match parsed
    case Unreadable => t == s
    case BadShape(id) => Refuses(s, t, device, id, BadCommand)
    case BadType(id) => Refuses(s, t, device, id, UnsupportedCommand)
    case Fine(id, kind, node) =>
      if Elapsed(now, receivedAt) <= 5000 then Acts(cfg, x, s, t, device, id, kind, node, now, draw)
      else Refuses(s, t, device, id, TooLate)
  }

  // ------------------------------------------------------------------ the object

  class CommandRunner {
    const host: PairingHost
    var slots: Slots
    var next: nat
    var pending: Option<nat>
    var pendingNode: u64
    /** What was told, what ran, and how many exchanges the host had completed when the pending accept ran. */
    ghost var told: seq<Told>
    ghost var runs: seq<RunOf>
    ghost var places: seq<nat>
    ghost var owners: seq<Option<nat>>
    ghost var serial: nat
    ghost var acceptedAt: nat

    ghost function Book(): Ledger
      reads this
    {
      Ledger(Ring(slots, next, pending), serial, told, runs, places, owners)
    }

    ghost function Now(): Scene
      reads this, host, host.store, host.store.records
    {
      Scene(host.Now(), host.store.Now(), Book(), pendingNode, host.store.records.faults)
    }

    /** The host accepted the pending node when the command ran, or later. */
    ghost predicate Since()
      reads this, host
    {
      pending.Some? ==>
        pendingNode != 0 && pendingNode in host.acceptedAt && acceptedAt <= host.acceptedAt[pendingNode]
    }

    ghost predicate Valid()
      reads this, host, host.store, host.store.records
    {
      host.Valid() && LedgerInv(Book()) && Since()
    }

    constructor (h: PairingHost)
      requires h.Valid()
      ensures Valid() && host == h && Book() == NEW_LEDGER
    {
      hide HostInv, Proven, SystemInv, StoreBytes.View;
      host := h;
      slots := NO_NOTES;
      next, pending, pendingNode, serial, acceptedAt := 0, None, 0, 0, 0;
      told, runs, places, owners := [], [], [], NO_OWNERS;
      new;
      NewLedger();
    }

    /** Whatever the radio and the setup page do to the host between two commands. */
    twostate lemma StaysValid()
      requires old(Valid()) && unchanged(this) && host.Valid()
      requires forall node | node in old(host.acceptedAt) ::
        node in host.acceptedAt && old(host.acceptedAt)[node] <= host.acceptedAt[node]
      ensures Valid()
    {
      hide HostInv, Proven, LedgerInv;
    }

    /** A pending accept whose node is the paired one was confirmed since the command ran. */
    lemma AppliedWasConfirmed() returns (i: nat)
      requires Valid() && pending.Some? && host.paired == pendingNode
      ensures acceptedAt <= i < |host.proofs|
      ensures ConfirmedBy(host.agreement, host.store.cfg.c, host.store.cfg.device, host.proofs[i], pendingNode)
    {
      hide HostInv, LedgerInv, React, KeyFor, InService, TaggedFrame;
      i := host.pairedBy;
      var p := host.proofs[i];
      ConfirmedIsPinned(p.host, host.agreement, host.store.cfg.c, host.store.cfg.device, p.pin, p.frame, p.rssi, p.at);
    }

    method FindSeen(device: u64, id: string) returns (found: Option<nat>)
      ensures found == FindEntry(slots, device, id, REMEMBERED)
    {
      for i := 0 to REMEMBERED
        invariant FindEntry(slots, device, id, i) == None
      {
        if slots[i].id != "" && slots[i].device == device && slots[i].id == id {
          FindEntryFirst(slots, device, id, i, REMEMBERED);
          return Some(i);
        }
      }
      return None;
    }

    method RememberEntry(e: Note) returns (slot: nat)
      requires RingValid(Ring(slots, next, pending))
      modifies this`slots, this`next
      ensures Ring(slots, next, pending) == Remember(old(Ring(slots, next, pending)), e)
      ensures slot == SlotFor(old(Ring(slots, next, pending)))
    {
      slot := next;
      next := (next + 1) % REMEMBERED;
      if pending == Some(slot) {
        slot := next;
        next := (next + 1) % REMEMBERED;
      }
      slots := slots[slot := e];
    }

    /** Tells a command's first answer; the command is remembered with it. */
    method Begin(device: u64, id: Id, v: Verdict) returns (slot: nat)
      requires RingValid(Book().ring) && |owners| == REMEMBERED
      modifies this`slots, this`next, this`told, this`runs, this`places, this`owners
      ensures Book() == Began(old(Book()), device, id, v) && slot == SlotFor(old(Book()).ring)
    {
      slot := RememberEntry(Note(id, device, v));
      owners, places := owners[slot := Some(|runs|)], places + [slot];
      runs := runs + [RunOf(device, id, v, |told|, None)];
      told := told + [Told(device, id, v, First(|runs| - 1))];
    }

    /** Answers a command at once, for good. */
    method AnswerNow(device: u64, id: Id, v: Verdict)
      requires Valid() && Fits(Book(), Answer(device, id, v))
      modifies this`slots, this`next, this`told, this`runs, this`places, this`owners
      ensures Valid() && Book() == Made(old(Book()), Answer(device, id, v))
      ensures ToldFirst(old(Book()), Book(), device, id, v) && pending == old(pending)
    {
      hide HostInv, Proven, FindEntry, SystemInv, StoreBytes.View, LedgerInv, ToldFirst;
      AnswerTold(Book(), device, id, v);
      MadeKeeps(Book(), Answer(device, id, v));
      InvShape(Book());
      var slot := Begin(device, id, v);
    }

    /** The one final answer of the pending command. */
    method FinishPending(v: Verdict)
      requires Valid() && Fits(Book(), Finish(v))
      modifies this`slots, this`pending, this`told, this`runs
      ensures Valid() && Book() == Made(old(Book()), Finish(v))
      ensures ToldFinal(old(Book()), Book(), v) && |runs| == |old(runs)|
    {
      hide HostInv, Proven, FindEntry, SystemInv, StoreBytes.View, LedgerInv, ToldFinal;
      ghost var was := Book();
      FinishTold(was, v);
      MadeKeeps(was, Finish(v));
      InvShape(was);
      var i := pending.value;
      var e := slots[i];
      pending := None;
      slots := slots[i := Note(e.id, e.device, v)];
      runs := runs[serial := runs[serial].(end := Some(End(v, |told|)))];
      told := told + [Told(e.device, e.id, v, Final(serial))];
    }

    method Conflicting(node: u64) returns (conflict: bool)
      ensures conflict <==> InConflict(host.candidates, node)
    {
      conflict := false;
      for i := 0 to |host.candidates|
        invariant conflict <==> exists j | 0 <= j < i :: host.candidates[j].node == node && host.candidates[j].conflict
      {
        conflict := conflict || (host.candidates[i].node == node && host.candidates[i].conflict);
      }
    }

    /**
     * `poll`: the pending accept is answered as soon as its outcome is known, at the latest
     * when the window has closed; Applied only when a frame confirmed it since it ran.
     */
    method Poll(now: u32) returns (ghost ms: seq<Move>)
      requires Valid()
      modifies this, host
      ensures Valid() && host.Now() == if old(pending).Some? then Polled(old(host.Now()), now) else old(host.Now())
      ensures host.SameTrace() && acceptedAt == old(acceptedAt) && pendingNode == old(pendingNode)
      ensures ms == PollMoves(old(pending), host.Now(), pendingNode)
      ensures Possible(old(Book()), ms) && Book() == AfterAll(old(Book()), ms)
      ensures old(pending).None? || host.phase.Closed? ==> pending.None?
      ensures PollTold(host.Now(), pendingNode, old(Book()), Book()) && |runs| == |old(runs)| && serial == old(serial)
      ensures ms == [Finish(Verdict(Applied, NoReason))] ==>
        exists i :: old(acceptedAt) <= i < |host.proofs|
          && ConfirmedBy(host.agreement, host.store.cfg.c, host.store.cfg.device, host.proofs[i], pendingNode)
    {
      hide HostInv, LedgerInv, Proven, ConfirmedBy, SystemInv, StoreBytes.View, Possible, AfterAll, ToldFinal;
      ms := [];
      OneMove(Book(), ms);
      if pending.None? {
        return;
      }
      host.Poll(now);
      ghost var was := Book();
      if host.paired == pendingNode {
        ghost var i := AppliedWasConfirmed();
        ms := [Finish(Verdict(Applied, NoReason))];
        FinishPending(Verdict(Applied, NoReason));
      } else if host.phase.Closed? {
        ms := [Finish(Verdict(Rejected, WindowClosed))];
        FinishPending(Verdict(Rejected, WindowClosed));
      } else if host.offer.node != pendingNode {
        var conflict := Conflicting(pendingNode);
        var v := Verdict(Rejected, if conflict then KeyConflict else Superseded);
        InConflictIff(host.candidates, pendingNode);
        ms := [Finish(v)];
        FinishPending(v);
      }
      OneMove(was, ms);
    }

    /** Whether the store lists the node. */
    method Known(node: u64) returns (known: bool)
      ensures known <==> host.store.health == Ready && Lists(host.store.registry.entries, node)
    {
      known := false;
      if host.store.health != Ready {
        return;
      }
      for i := 0 to BINDING_CAPACITY
        invariant known ==> Lists(host.store.registry.entries, node)
        invariant !known ==> forall j | 0 <= j < i ::
          host.store.registry.entries[j].state.Empty? || host.store.registry.entries[j].node != node
      {
        var e := host.store.registry.entries[i];
        known := known || (!e.state.Empty? && e.node == node);
      }
    }

    /** Revokes every prepared or active enrollment of the node. */
    method RevokeNode(node: u64) returns (reason: Reason)
      requires Valid()
      modifies host.store, host.store.records
      ensures Valid() && host.Now() == old(host.Now()) && host.SameTrace()
      ensures reason.NoReason? ==> host.store.health == Ready && Gone(host.store.registry.entries, node)
      ensures reason.UnknownNode? <==> old(host.store.health) != Ready || !Lists(old(host.store.registry).entries, node)
      ensures reason.UnknownNode? ==> host.store.Now() == old(host.store.Now())
      ensures reason.NoReason? ==>
        OnlyRevoked(old(host.store.registry).entries, host.store.registry.entries, node, BINDING_CAPACITY)
      ensures host.store.records.faults >= old(host.store.records.faults)
      ensures reason.NoReason? || reason.UnknownNode? || reason.StorageFault?
      ensures Undisturbed(old(Now()), Now()) ==> !reason.StorageFault?
    {
      hide HostInv, SystemInv, StoreBytes.View, Followed, Faultless, Proven, LedgerInv;
      if host.store.health != Ready {
        return UnknownNode;
      }
      var listed := host.store.registry.entries;
      var found := false;
      for i := 0 to BINDING_CAPACITY
        invariant Valid() && host.store.health == Ready
        invariant OnlyRevoked(listed, host.store.registry.entries, node, i)
        invariant host.store.registry.revision <= old(host.store.registry).revision + i
        invariant host.store.records.faults >= old(host.store.records.faults)
        invariant !found ==> host.store.Now() == old(host.store.Now())
        invariant found <==> exists j :: 0 <= j < i && !listed[j].state.Empty? && listed[j].node == node
        invariant host.Now() == old(host.Now()) && host.SameTrace()
      {
        if !listed[i].state.Empty? && listed[i].node == node {
          found := true;
          if listed[i].state.Active? || listed[i].state.Prepared? {
            ghost var s := host.store.Now();
            var result := host.store.RevokeGeneration(node, listed[i].generation);
            RevokeResults(host.store.cfg, s, i, host.store.Now(), result);
            if host.store.records.faults == old(host.store.records.faults) && s.m.registry.revision != UINT64_MAX {
              RevokeSucceeds(host.store.cfg, s, i, host.store.Now(), result);
            }
            if result == StorageError {
              return StorageFault;
            }
            if result != Ok {
              return OtherFault;
            }
            RevokedEntries(host.store.cfg, s, i, host.store.Now());
          }
        }
      }
      return if found then NoReason else UnknownNode;
    }

    /** The new offer replaced any earlier one; this command is now the pending one. */
    method BecomePending(device: u64, id: Id, node: u64) returns (ghost ms: seq<Move>)
      requires Valid() && FindEntry(slots, device, id, REMEMBERED).None?
      requires node != 0 && node in host.acceptedAt && host.acceptedAt[node] == |host.proofs|
      modifies this
      ensures Valid() && pending.Some? && pendingNode == node && acceptedAt == |host.proofs|
      ensures old(pending).Some? ==> serial != old(serial)
      ensures ToldPending(old(Book()), Book(), device, id)
      ensures ms == (if old(pending).Some? then [Finish(SUPERSEDED)] else []) + [Await(device, id)]
      ensures Possible(old(Book()), ms) && Book() == AfterAll(old(Book()), ms)
    {
      hide PairingHost.Valid, LedgerInv, FindEntry, SystemInv, StoreBytes.View, Possible, AfterAll;
      ghost var was := Book();
      ms := [];
      if pending.Some? {
        ms := [Finish(SUPERSEDED)];
        FinishedFinds(was, SUPERSEDED, device, id);
        FinishPending(SUPERSEDED);
      }
      ghost var mid := Book();
      AwaitTold(mid, device, id);
      InvShape(was);
      MadeKeeps(mid, Await(device, id));
      InvShape(mid);
      var slot := Begin(device, id, WAITING);
      serial := |runs| - 1;
      pending, pendingNode, acceptedAt := Some(slot), node, |host.proofs|;
      ms := ms + [Await(device, id)];
      OneMove(mid, [Await(device, id)]);
      assert [] + [Await(device, id)] == [Await(device, id)];
      if was.ring.pending.Some? {
        MoreMoves(was, Finish(SUPERSEDED), [Await(device, id)]);
      }
    }

    method RunAccept(device: u64, id: Id, node: u64, now: u32, draw: Draw) returns (ghost ms: seq<Move>)
      requires Valid() && FindEntry(slots, device, id, REMEMBERED).None?
      modifies this, host
      ensures Valid() && Possible(old(Book()), ms) && Book() == AfterAll(old(Book()), ms)
      ensures Offered(device, id, node, now, draw, ms)
      ensures AcceptTold(old(host.Now()), host.Now(), host.agreement, host.store.cfg.c, host.store.Memory(),
                         host.store.cfg.device, old(Book()), Book(), device, id, node, pendingNode, now, draw)
      ensures old(pending).Some? && serial == old(serial) ==>
        acceptedAt == old(acceptedAt) && pendingNode == old(pendingNode)
    {
      hide HostInv, Proven, LedgerInv, AfterAccept, FindEntry, SystemInv, StoreBytes.View, FreeSlotsIn, Possible,
        AfterAll, ToldFirst, ToldPending, AcceptCauses, AcceptTold;
      AcceptFacts(host.Now(), node, now, draw);
      ghost var h, was := host.Now(), Book();
      ghost var free := FreeSlotsIn(host.store.Memory());
      AcceptedIsOffered(h, host.agreement, host.store.cfg.c, host.store.Memory(), free, host.store.cfg.device, node,
                        now, draw);
      var result := host.Accept(node, now, draw);
      if result != Ok {
        AnswerNow(device, id, Verdict(Rejected, ReasonFor(result)));
        CausesTold(h, host.Now(), host.agreement, host.store.cfg.c, host.store.Memory(), host.store.cfg.device, was,
                   Book(), device, id, node, pendingNode, now, draw, result);
        ms := [Answer(device, id, Verdict(Rejected, ReasonFor(result)))];
        OneMove(was, ms);
        return;
      }
      ms := BecomePending(device, id, node);
      CausesTold(h, host.Now(), host.agreement, host.store.cfg.c, host.store.Memory(), host.store.cfg.device, was,
                 Book(), device, id, node, pendingNode, now, draw, result);
    }

    /** The host's answer to an accept, cause by cause. */
    lemma AcceptFacts(h: Host, node: u64, now: u32, draw: Draw)
      requires Valid() && h == host.Now()
      ensures AcceptCauses(h, host.agreement, host.store.cfg.c, host.store.Memory(), host.store.cfg.device, node, now,
                           draw)
    {
      hide LedgerInv, Proven, SystemInv, StoreBytes.View;
      assert Distinct(h.candidates);
      hide HostInv;
      ReasonLaw(h, host.agreement, host.store.cfg.c, host.store.Memory(), host.store.cfg.device, node, now, draw);
    }

    /** An accept: the host decides; a new offer supersedes the pending accept and awaits its own answer. */
    twostate predicate Offered(device: u64, id: Id, node: u64, now: u32, draw: Draw, ms: seq<Move>)
      reads this, host, host.store
    {
      var free := FreeSlotsIn(old(host.store.Memory()));
      var (h, result) := AfterAccept(old(host.Now()), host.agreement, host.store.cfg.c, old(host.store.Memory()), free,
                                     host.store.cfg.device, node, now, draw);
      && host.Now() == h
      && (result == Ok ==>
            && ms == (if old(pending).Some? then [Finish(SUPERSEDED)] else []) + [Await(device, id)]
            && pendingNode == node && host.offer.node == node && host.phase.Offered? && host.paired != node
            && acceptedAt == |host.proofs|)
      && (result != Ok ==> ms == [Answer(device, id, Verdict(Rejected, ReasonFor(result)))])
    }

    /** What running a new command does, by its kind. */
    twostate predicate Ran(device: u64, id: Id, kind: CommandType, node: u64, now: u32, draw: Draw, ms: seq<Move>)
      reads this, host, host.store
    {
      if device != host.store.cfg.device then
        && host.Now() == old(host.Now())
        && var known := old(host.store.health) == Ready && Lists(old(host.store.registry).entries, device);
           ms == [Answer(device, id, Verdict(Rejected, if known then UnsupportedCommand else UnknownNode))]
      else match kind
      case PairingOpen =>
        && host.Now() == (if old(host.phase).Closed? then HostPairing.Opened(old(host.Now()), now) else old(host.Now()))
        && ms == [Answer(device, id, Verdict(Applied, NoReason))]
      case PairingClose =>
        && host.Now() == Polled(Shut(old(host.Now())), now)
        && ms == [Answer(device, id, Verdict(Applied, NoReason))] + PollMoves(old(pending), host.Now(),
            old(pendingNode))
        && pending.None?
      case NodeRevoke =>
        && host.Now() == old(host.Now())
        && exists reason :: Revoked(node, reason)
             && ms == [Answer(device, id, Verdict(if reason.NoReason? then Applied else Rejected, reason))]
      case PairingAccept => Offered(device, id, node, now, draw, ms)
    }

    /** What a revocation that gave this reason left in the store. */
    twostate predicate Revoked(node: u64, reason: Reason)
      reads this, host, host.store
    {
      && (reason.NoReason? ==> host.store.health == Ready && Gone(host.store.registry.entries, node))
      && (reason.UnknownNode? <==> old(host.store.health) != Ready || !Lists(old(host.store.registry).entries, node))
    }

    method RunForeign(device: u64, id: Id) returns (ghost ms: seq<Move>)
      requires Valid() && FindEntry(slots, device, id, REMEMBERED).None?
      modifies this`slots, this`next, this`told, this`runs, this`places, this`owners
      ensures Valid() && Possible(old(Book()), ms) && Book() == AfterAll(old(Book()), ms)
      ensures
        var known := host.store.health == Ready && Lists(host.store.registry.entries, device);
        && ms == [Answer(device, id, Verdict(Rejected, if known then UnsupportedCommand else UnknownNode))]
        && ForeignTold(known, old(Book()), Book(), device, id)
    {
      hide PairingHost.Valid, LedgerInv, FindEntry, SystemInv, StoreBytes.View, Possible, AfterAll, ToldFirst, Made;
      ghost var was := Book();
      var known := Known(device);
      var v := Verdict(Rejected, if known then UnsupportedCommand else UnknownNode);
      AnswerNow(device, id, v);
      ms := [Answer(device, id, v)];
      OneMove(was, ms);
    }

    method RunOpen(device: u64, id: Id, now: u32) returns (ghost ms: seq<Move>)
      requires Valid() && FindEntry(slots, device, id, REMEMBERED).None?
      modifies this`slots, this`next, this`told, this`runs, this`places, this`owners, host
      ensures Valid() && Possible(old(Book()), ms) && Book() == AfterAll(old(Book()), ms)
      ensures host.Now() == (if old(host.phase).Closed? then HostPairing.Opened(old(host.Now()), now)
                             else old(host.Now()))
      ensures ms == [Answer(device, id, Verdict(Applied, NoReason))]
      ensures OpenTold(old(host.Now()), host.Now(), old(Book()), Book(), device, id, now)
    {
      hide PairingHost.Valid, LedgerInv, FindEntry, SystemInv, StoreBytes.View, Possible, AfterAll, ToldFirst, Made;
      ghost var was := Book();
      if host.phase.Closed? {
        host.OpenWindow(now);
      }
      AnswerNow(device, id, Verdict(Applied, NoReason));
      ms := [Answer(device, id, Verdict(Applied, NoReason))];
      OneMove(was, ms);
    }

    method RunClose(device: u64, id: Id, now: u32) returns (ghost ms: seq<Move>)
      requires Valid() && FindEntry(slots, device, id, REMEMBERED).None?
      modifies this, host
      ensures Valid() && Possible(old(Book()), ms) && Book() == AfterAll(old(Book()), ms)
      ensures host.Now() == Polled(Shut(old(host.Now())), now) && pending.None?
      ensures ms == [Answer(device, id, Verdict(Applied, NoReason))] + PollMoves(old(pending), host.Now(),
          old(pendingNode))
      ensures CloseTold(old(host.Now()), host.Now(), old(Book()), Book(), device, id, old(pendingNode))
      ensures acceptedAt == old(acceptedAt) && pendingNode == old(pendingNode)
    {
      hide PairingHost.Valid, LedgerInv, FindEntry, SystemInv, StoreBytes.View, Possible, AfterAll, ToldFirst, Made,
        PollTold, CloseTold, Polled;
      ghost var was, h := Book(), host.Now();
      host.Close();
      assert host.Now() == Shut(h);
      AnswerNow(device, id, Verdict(Applied, NoReason));
      ghost var mid := Book();
      ShutStays(h, now);
      ghost var more := Poll(now);
      ms := [Answer(device, id, Verdict(Applied, NoReason))] + more;
      MoreMoves(was, Answer(device, id, Verdict(Applied, NoReason)), more);
      ClosesTold(h, host.Now(), was, mid, Book(), device, id, pendingNode, now);
    }

    method RunRevoke(device: u64, id: Id, node: u64) returns (ghost ms: seq<Move>)
      requires Valid() && FindEntry(slots, device, id, REMEMBERED).None?
      modifies this`slots, this`next, this`told, this`runs, this`places, this`owners, host.store, host.store.records
      ensures Valid() && Possible(old(Book()), ms) && Book() == AfterAll(old(Book()), ms)
      ensures host.Now() == old(host.Now())
      ensures exists reason ::
        (Revoked(node, reason)
         && ms == [Answer(device, id, Verdict(if reason.NoReason? then Applied else Rejected, reason))])
      ensures RevokeActs(old(Now()), Now(), device, id, node)
    {
      hide PairingHost.Valid, LedgerInv, FindEntry, SystemInv, StoreBytes.View, Possible, AfterAll, ToldFirst, Made,
        Gone, Lists, OnlyRevoked;
      ghost var was := Book();
      var reason := RevokeNode(node);
      var v := Verdict(if reason.NoReason? then Applied else Rejected, reason);
      AnswerNow(device, id, v);
      ms := [Answer(device, id, v)];
      OneMove(was, ms);
      assert Revoked(node, reason);
    }

    /** Runs a command that was not seen before. */
    method RunCommand(device: u64, id: Id, kind: CommandType, node: u64, now: u32, draw: Draw)
      returns (ghost ms: seq<Move>)
      requires Valid() && FindEntry(slots, device, id, REMEMBERED).None?
      modifies this, host, host.store, host.store.records
      ensures Valid() && Possible(old(Book()), ms) && Book() == AfterAll(old(Book()), ms)
      ensures Ran(device, id, kind, node, now, draw, ms)
      ensures Acts(host.store.cfg, host.agreement, old(Now()), Now(), device, id, kind, node, now, draw)
      ensures device != host.store.cfg.device || !kind.NodeRevoke? ==> host.store.Now() == old(host.store.Now())
      ensures old(pending).Some? && serial == old(serial) ==>
        acceptedAt == old(acceptedAt) && pendingNode == old(pendingNode)
    {
      hide PairingHost.Valid, LedgerInv, FindEntry, Offered, SystemInv, StoreBytes.View, Possible, AfterAll,
        ForeignTold, OpenTold, CloseTold, RevokeActs, AcceptTold, Revoked, Lists;
      if device != host.store.cfg.device {
        ms := RunForeign(device, id);
        return;
      }
      match kind
      case PairingOpen => ms := RunOpen(device, id, now);
      case PairingClose => ms := RunClose(device, id, now);
      case NodeRevoke => ms := RunRevoke(device, id, node);
      case PairingAccept => ms := RunAccept(device, id, node, now, draw);
    }

    /** Tells a remembered command's latest answer again. */
    method Replay(device: u64, id: Id, seen: nat) returns (ghost ms: seq<Move>)
      requires Valid() && FindEntry(slots, device, id, REMEMBERED) == Some(seen)
      modifies this`told
      ensures Valid() && ms == [Repeat(seen)] && Possible(old(Book()), ms) && Book() == AfterAll(old(Book()), ms)
      ensures forall k | 0 <= k < |runs| <= k + 7 && runs[k].device == device && runs[k].id == id ::
        told == old(told) + [Told(device, id, LastAnswer(runs[k]), Replayed(k))]
    {
      hide PairingHost.Valid, LedgerInv, FindEntry, Possible, AfterAll, LastAnswer;
      ghost var was := Book();
      InvShape(was);
      RecentSeen(was, device, id);
      var e := slots[seen];
      FoundNote(was, device, id);
      told := told + [Told(e.device, e.id, e.verdict, Replayed(owners[seen].value))];
      ms := [Repeat(seen)];
      MadeKeeps(was, Repeat(seen));
      OneMove(was, ms);
    }

    /**
     * `execute`: a command seen before is answered with its latest result and runs nothing; a
     * new one runs once and is remembered. Any of the last seven commands has been seen.
     */
    method Execute(device: u64, parsed: Parsed, receivedAt: u32, now: u32, draw: Draw) returns (ghost ms: seq<Move>)
      requires Valid()
      modifies this, host, host.store, host.store.records
      ensures Valid() && Possible(old(Book()), ms) && Book() == AfterAll(old(Book()), ms)
      ensures parsed.Unreadable? ==>
        ms == [] && host.Now() == old(host.Now()) && host.store.Now() == old(host.store.Now())
      ensures !parsed.Unreadable? ==>
        var seen := FindEntry(old(slots), device, parsed.id, REMEMBERED);
        if seen.Some? then
          ms == [Repeat(seen.value)] && host.Now() == old(host.Now()) && host.store.Now() == old(host.store.Now())
        else if Early(parsed, receivedAt, now).Some? then
          && ms == [Answer(device, parsed.id, Verdict(Rejected, Early(parsed, receivedAt, now).value))]
          && host.Now() == old(host.Now()) && host.store.Now() == old(host.store.Now())
        else Ran(device, parsed.id, parsed.kind, parsed.node, now, draw, ms)
      ensures parsed.Unreadable? || Unseen(old(Book()), device, parsed.id) ==>
        Does(host.store.cfg, host.agreement, old(Now()), Now(), device, parsed, receivedAt, now, draw)
      ensures old(pending).Some? && serial == old(serial) ==>
        acceptedAt == old(acceptedAt) && pendingNode == old(pendingNode)
      ensures !parsed.Unreadable? ==>
        forall k | 0 <= k < |old(runs)| <= k + 7 && old(runs)[k].device == device && old(runs)[k].id == parsed.id ::
          Book() == old(Book()).(told := old(told) + [Told(device, parsed.id, LastAnswer(old(runs)[k]), Replayed(k))])
    {
      hide PairingHost.Valid, LedgerInv, FindEntry, SystemInv, StoreBytes.View, Possible, AfterAll, AfterAccept,
        FreeSlotsIn, Gone, Lists, InService, RegistryFits, LastAnswer, Elapsed, Unseen, Acts, ToldFirst, Made;
      ghost var was := Book();
      ms := [];
      OneMove(was, ms);
      if parsed.Unreadable? {
        return;
      }
      RecentSeen(was, device, parsed.id);
      if Unseen(was, device, parsed.id) {
        UnseenNew(was, device, parsed.id);
      }
      var seen := FindSeen(device, parsed.id);
      if seen.Some? {
        ms := Replay(device, parsed.id, seen.value);
        return;
      }
      var early := Early(parsed, receivedAt, now);
      if early.Some? {
        AnswerNow(device, parsed.id, Verdict(Rejected, early.value));
        ms := [Answer(device, parsed.id, Verdict(Rejected, early.value))];
        OneMove(was, ms);
      } else {
        ms := RunCommand(device, parsed.id, parsed.kind, parsed.node, now, draw);
      }
    }
  }
}
