// What the command runner remembers and has told (cajui_command.cpp): a ring of recent
// commands that spares the pending accept, and the ledger of every command that ran.
module CommandLedger {
  import opened Protocol

  const REMEMBERED := 8

  datatype Status = Applied | Waiting | Rejected

  datatype Reason =
    | NoReason | BadCommand | UnsupportedCommand | TooLate | UnknownNode | WindowClosed | NotRequested
    | KeyConflict | NoSlot | Superseded | StorageFault | OtherFault

  datatype Verdict = Verdict(status: Status, reason: Reason)

  const WAITING := Verdict(Waiting, NoReason)
  const SUPERSEDED := Verdict(Rejected, Superseded)

  /** A usable command id; the empty one marks a free slot. */
  type Id = s: string | s != "" witness "?"

  datatype Note = Note(id: string, device: u64, verdict: Verdict)

  const NO_NOTE := Note("", 0, Verdict(Rejected, NoReason))
  const NO_NOTES: seq<Note> := [NO_NOTE, NO_NOTE, NO_NOTE, NO_NOTE, NO_NOTE, NO_NOTE, NO_NOTE, NO_NOTE]

  // ------------------------------------------------------------------ the ring

  type Slots = s: seq<Note> | |s| == REMEMBERED
    witness NO_NOTES

  datatype Ring = Ring(slots: Slots, next: nat, pending: Option<nat>)

  predicate RingValid(r: Ring) { r.next < REMEMBERED && (r.pending.Some? ==> r.pending.value < REMEMBERED) }

  function After(i: nat): nat { (i + 1) % 8 }

  /** The slot `remember` uses: the next one, or the one after it when that is the pending accept. */
  function SlotFor(r: Ring): nat { if r.pending == Some(r.next) then After(r.next) else r.next }

  function Remember(r: Ring, e: Note): Ring
    requires RingValid(r)
  {
    Ring(r.slots[SlotFor(r) := e], After(SlotFor(r)), r.pending)
  }

  predicate Is(e: Note, device: u64, id: string) { e.id != "" && e.device == device && e.id == id }

  /** `find` among the first `n` slots. */
  function FindEntry(s: Slots, device: u64, id: string, n: nat): (r: Option<nat>)
    requires n <= REMEMBERED
    ensures r.Some? ==> r.value < n && Is(s[r.value], device, id)
    ensures r.None? ==> forall i | 0 <= i < n :: !Is(s[i], device, id)
  {
    if n == 0 then None
    else
      var r := FindEntry(s, device, id, n - 1);
      if r.Some? then r else if Is(s[n - 1], device, id) then Some(n - 1) else None
  }

  lemma {:induction false} FindEntryFirst(s: Slots, device: u64, id: string, i: nat, n: nat)
    requires i < n <= REMEMBERED && FindEntry(s, device, id, i).None? && Is(s[i], device, id)
    ensures FindEntry(s, device, id, n) == Some(i)
  {
    if i < n - 1 {
      FindEntryFirst(s, device, id, i, n - 1);
    }
  }

  /** The pending accept is never overwritten. */
  lemma PendingKept(r: Ring, e: Note)
    requires RingValid(r) && r.pending.Some?
    ensures RingValid(Remember(r, e)) && Remember(r, e).slots[r.pending.value] == r.slots[r.pending.value]
    ensures SlotFor(r) != r.pending.value
  {
  }

  /** How many slots come before `s`, going round from the next one. */
  function Distance(r: Ring, s: nat): nat
    requires RingValid(r) && s < REMEMBERED
  {
    (s + 8 - r.next) % 8
  }

  /** The pending accept lies before slot `s`. */
  predicate Ahead(r: Ring, s: nat)
    requires RingValid(r) && s < REMEMBERED
  {
    r.pending.Some? && Distance(r, r.pending.value) < Distance(r, s)
  }

  /** How many more commands can be remembered before slot `s` is used. */
  function Budget(r: Ring, s: nat): nat
    requires RingValid(r) && s < REMEMBERED
  {
    Distance(r, s) - if Ahead(r, s) then 1 else 0
  }

  lemma DistanceAfter(r: Ring, t: Ring, s: nat)
    requires RingValid(r) && RingValid(t) && s < REMEMBERED && t.next == After(r.next)
    ensures Distance(t, s) == if Distance(r, s) == 0 then 7 else Distance(r, s) - 1
    ensures Distance(r, s) == 0 <==> r.next == s
  {
  }

  lemma DistanceSame(r: Ring, t: Ring)
    requires RingValid(r) && RingValid(t) && r.next == t.next
    ensures forall s: nat | s < REMEMBERED :: Distance(r, s) == Distance(t, s)
  {
  }

  /** Remembering uses up one of the budget. */
  lemma RememberSpends(r: Ring, e: Note, s: nat)
    requires RingValid(r) && s < REMEMBERED && Budget(r, s) > 0
    ensures RingValid(Remember(r, e)) && Remember(r, e).slots[s] == r.slots[s] && SlotFor(r) != s
    ensures Budget(Remember(r, e), s) == Budget(r, s) - 1
  {
    var once := Ring(r.slots, After(r.next), r.pending);
    var t := Remember(r, e);
    hide Distance;
    DistanceAfter(r, once, s);
    if r.pending.Some? {
      DistanceAfter(r, once, r.pending.value);
    }
    if r.pending == Some(r.next) {
      DistanceAfter(once, t, s);
      DistanceAfter(once, t, r.pending.value);
    } else {
      DistanceSame(once, t);
    }
  }

  /** A slot is used exactly when its budget is spent and it is not the pending accept. */
  lemma UsedIff(r: Ring, s: nat)
    requires RingValid(r) && s < REMEMBERED
    ensures SlotFor(r) == s <==> Budget(r, s) == 0 && r.pending != Some(s)
  {
  }

  /** A slot just used has the largest budget, and is ahead of no other. */
  lemma JustUsed(r: Ring, e: Note)
    requires RingValid(r)
    ensures
      var (t, s) := (Remember(r, e), SlotFor(r));
      && RingValid(t) && s < REMEMBERED && t.slots[s] == e
      && Budget(t, s) == (if r.pending.Some? then 6 else 7)
      && forall i: nat | i < REMEMBERED :: Distance(t, i) <= Distance(t, s)
  {
  }

  /** Commands remembered one after the other. */
  function RememberAll(r: Ring, es: seq<Note>): (t: Ring)
    requires RingValid(r)
    ensures RingValid(t) && t.pending == r.pending
    decreases es
  {
    if es == [] then r else Remember(RememberAll(r, es[..|es| - 1]), es[|es| - 1])
  }

  lemma {:induction false} AllSpend(r: Ring, es: seq<Note>, s: nat)
    requires RingValid(r) && s < REMEMBERED && Budget(r, s) >= |es|
    ensures RememberAll(r, es).slots[s] == r.slots[s] && Budget(RememberAll(r, es), s) == Budget(r, s) - |es|
    decreases es
  {
    if es != [] {
      hide Budget;
      AllSpend(r, es[..|es| - 1], s);
      RememberSpends(RememberAll(r, es[..|es| - 1]), es[|es| - 1], s);
    }
  }

  /**
   * How long a command is remembered: while an accept is pending through exactly six later
   * ones, otherwise through exactly seven.
   */
  lemma LastsExactly(r: Ring, e: Note, es: seq<Note>)
    requires RingValid(r)
    ensures
      var lasts := if r.pending.Some? then 6 else 7;
      var t := RememberAll(Remember(r, e), es);
      && (|es| <= lasts ==> t.slots[SlotFor(r)] == e)
      && (|es| == lasts + 1 ==> t.slots[SlotFor(r)] == es[lasts])
  {
    var lasts := if r.pending.Some? then 6 else 7;
    var t, s := Remember(r, e), SlotFor(r);
    JustUsed(r, e);
    if |es| <= lasts {
      AllSpend(t, es, s);
    } else if |es| == lasts + 1 {
      AllSpend(t, es[..lasts], s);
      var u := RememberAll(t, es[..lasts]);
      UsedIff(u, s);
    }
  }

  // ------------------------------------------------------------------ the ledger

  /** Why a result was told: a command's first answer, a pending one's final one, or a repeat of the command. */
  datatype Cause = First(run: nat) | Final(run: nat) | Replayed(run: nat)

  datatype Told = Told(device: u64, id: Id, verdict: Verdict, cause: Cause)

  /** The final answer of a pending command: what it was, and where in the results told it stands. */
  datatype End = End(verdict: Verdict, at: nat)

  /** A command that ran, its first answer and where that stands. */
  datatype RunOf = RunOf(device: u64, id: Id, first: Verdict, at: nat, end: Option<End>)

  /**
   * The ring, the pending command, every result told, every command that ran, the slot each
   * was remembered in, and whose note each slot holds.
   */
  datatype Ledger = Ledger(ring: Ring, serial: nat, told: seq<Told>, runs: seq<RunOf>, places: seq<nat>,
                           owners: seq<Option<nat>>)

  const NO_OWNERS: seq<Option<nat>> := [None, None, None, None, None, None, None, None]
  const NEW_LEDGER := Ledger(Ring(NO_NOTES, 0, None), 0, [], [], [], NO_OWNERS)

  function LastAnswer(r: RunOf): Verdict { if r.end.Some? then r.end.value.verdict else r.first }

  /** The command's latest answer among the first `n` results. */
  function LastIn(r: RunOf, n: nat): Verdict
  {
    if r.end.Some? && r.end.value.at < n then r.end.value.verdict else r.first
  }

  function NoteOf(r: RunOf): Note { Note(r.id, r.device, LastAnswer(r)) }

  /** A run's answers are where it says; only a command told Waiting is answered again, once and for good. */
  ghost predicate RunTold(told: seq<Told>, r: RunOf, k: nat)
  {
    && r.at < |told| && told[r.at] == Told(r.device, r.id, r.first, First(k))
    && (r.first.status.Waiting? ==> r.first == WAITING)
    && (r.end.Some? ==>
          var e := r.end.value;
          && r.at < e.at < |told| && told[e.at] == Told(r.device, r.id, e.verdict, Final(k))
          && r.first.status.Waiting? && !e.verdict.status.Waiting?)
  }

  /** Every result told is a run's first answer, its final one, or a replay of the latest before it. */
  ghost predicate Accounted(runs: seq<RunOf>, x: Told, i: nat)
  {
    && x.cause.run < |runs|
    && var r := runs[x.cause.run];
       && r.device == x.device && r.id == x.id
       && match x.cause
          case First(_) => r.at == i
          case Final(_) => r.end.Some? && r.end.value.at == i
          case Replayed(_) => r.at < i && x.verdict == LastIn(r, i)
  }

  ghost predicate Chronicled(l: Ledger)
  {
    && (forall k | 0 <= k < |l.runs| :: RunTold(l.told, l.runs[k], k))
    && (forall i | 0 <= i < |l.told| :: Accounted(l.runs, l.told[i], i))
  }

  predicate Awaits(r: RunOf) { r.first.status.Waiting? && r.end.None? }

  /** Exactly the pending command still awaits its final answer. */
  ghost predicate OneAwaits(l: Ledger)
  {
    && (forall k | 0 <= k < |l.runs| :: Awaits(l.runs[k]) <==> l.ring.pending.Some? && k == l.serial)
    && (l.ring.pending.Some? ==> l.serial < |l.runs|)
  }

  /** A slot holds the latest answer of the run it belongs to; no two hold the same command. */
  ghost predicate NotesKept(l: Ledger)
  {
    && |l.places| == |l.runs| && |l.owners| == REMEMBERED
    && (forall i | 0 <= i < REMEMBERED :: SlotKept(l, i))
    && (forall i, j | 0 <= i < REMEMBERED && 0 <= j < REMEMBERED ::
        Is(l.ring.slots[i], l.ring.slots[j].device, l.ring.slots[j].id) ==> i == j)
    && (l.ring.pending.Some? ==> l.ring.pending.value < REMEMBERED && l.owners[l.ring.pending.value] == Some(l.serial))
  }

  ghost predicate SlotKept(l: Ledger, i: nat)
    requires i < REMEMBERED && |l.owners| == REMEMBERED && |l.places| == |l.runs|
  {
    match l.owners[i]
    case None => l.ring.slots[i].id == ""
    case Some(k) => k < |l.runs| && l.places[k] == i && l.ring.slots[i] == NoteOf(l.runs[k])
  }

  /** The last seven commands are remembered, each for six commands after it. */
  ghost predicate Recent(l: Ledger)
    requires RingValid(l.ring) && |l.places| == |l.runs| && |l.owners| == REMEMBERED
  {
    forall k | 0 <= k < |l.runs| <= k + 7 ::
      && l.places[k] < REMEMBERED && l.owners[l.places[k]] == Some(k)
      && Budget(l.ring, l.places[k]) + |l.runs| >= k + 7
  }

  ghost predicate LedgerInv(l: Ledger)
  {
    RingValid(l.ring) && Chronicled(l) && OneAwaits(l) && NotesKept(l) && Recent(l)
  }

  lemma NewLedger()
    ensures LedgerInv(NEW_LEDGER)
  {
  }

  // ------------------------------------------------------------------ what happens to it

  /**
   * A remembered command is answered again; a new one is answered, or awaits its answer; the pending one is
   * answered.
   */
  datatype Move =
    | Repeat(slot: nat)
    | Answer(device: u64, id: Id, verdict: Verdict)
    | Await(device: u64, id: Id)
    | Finish(verdict: Verdict)

  ghost predicate Fits(l: Ledger, mv: Move)
  {
    match mv
    case Repeat(i) => i < REMEMBERED && l.ring.slots[i].id != ""
    case Answer(device, id, v) => !v.status.Waiting? && FindEntry(l.ring.slots, device, id, REMEMBERED).None?
    case Await(device, id) => l.ring.pending.None? && FindEntry(l.ring.slots, device, id, REMEMBERED).None?
    case Finish(v) => l.ring.pending.Some? && !v.status.Waiting?
  }

  /** A command runs: it is told its first answer and remembered. */
  function Began(l: Ledger, device: u64, id: Id, v: Verdict): Ledger
    requires RingValid(l.ring) && |l.owners| == REMEMBERED
  {
    var n, s := |l.runs|, SlotFor(l.ring);
    Ledger(Remember(l.ring, Note(id, device, v)), l.serial, l.told + [Told(device, id, v, First(n))],
           l.runs + [RunOf(device, id, v, |l.told|, None)], l.places + [s], l.owners[s := Some(n)])
  }

  function Repeated(l: Ledger, i: nat): Ledger
    requires i < REMEMBERED && |l.owners| == REMEMBERED && l.owners[i].Some? && l.ring.slots[i].id != ""
  {
    var e := l.ring.slots[i];
    l.(told := l.told + [Told(e.device, e.id, e.verdict, Replayed(l.owners[i].value))])
  }

  function Ended(l: Ledger, v: Verdict): Ledger
    requires RingValid(l.ring) && l.ring.pending.Some? && l.serial < |l.runs|
  {
    var r, p := l.runs[l.serial], l.ring.pending.value;
    l.(ring := Ring(l.ring.slots[p := Note(r.id, r.device, v)], l.ring.next, None),
       told := l.told + [Told(r.device, r.id, v, Final(l.serial))],
       runs := l.runs[l.serial := r.(end := Some(End(v, |l.told|)))])
  }

  function Awaiting(l: Ledger, device: u64, id: Id): Ledger
    requires RingValid(l.ring) && |l.owners| == REMEMBERED
  {
    var t := Began(l, device, id, WAITING);
    t.(ring := t.ring.(pending := Some(SlotFor(l.ring))), serial := |l.runs|)
  }

  function Made(l: Ledger, mv: Move): Ledger
    requires LedgerInv(l) && Fits(l, mv)
  {
    match mv
    case Repeat(i) => assert SlotKept(l, i); Repeated(l, i)
    case Answer(device, id, v) => Began(l, device, id, v)
    case Await(device, id) => Awaiting(l, device, id)
    case Finish(v) => Ended(l, v)
  }

  // ------------------------------------------------------------------ what every step keeps

  lemma BeganChronicled(l: Ledger, device: u64, id: Id, v: Verdict)
    requires RingValid(l.ring) && |l.owners| == REMEMBERED && Chronicled(l) && (v.status.Waiting? ==> v == WAITING)
    ensures Chronicled(Began(l, device, id, v))
  {
    var t := Began(l, device, id, v);
    hide Remember;
    forall k | 0 <= k < |t.runs| ensures RunTold(t.told, t.runs[k], k) {
      if k < |l.runs| {
        assert RunTold(l.told, l.runs[k], k);
      }
    }
    forall i | 0 <= i < |t.told| ensures Accounted(t.runs, t.told[i], i) {
      if i < |l.told| {
        assert Accounted(l.runs, l.told[i], i);
      }
    }
  }

  /** The slot a command is remembered in is not the pending accept's, and loses no recent command. */
  lemma BeganKept(l: Ledger, device: u64, id: Id, v: Verdict)
    requires RingValid(l.ring) && NotesKept(l) && Recent(l) && FindEntry(l.ring.slots, device, id, REMEMBERED).None?
    ensures NotesKept(Began(l, device, id, v)) && RingValid(Began(l, device, id, v).ring)
  {
    var t, s := Began(l, device, id, v), SlotFor(l.ring);
    hide Recent, Distance;
    forall i | 0 <= i < REMEMBERED ensures SlotKept(t, i) {
      assert SlotKept(l, i);
    }
  }

  lemma BeganRecent(l: Ledger, device: u64, id: Id, v: Verdict)
    requires RingValid(l.ring) && NotesKept(l) && Recent(l) && NotesKept(Began(l, device, id, v))
    ensures RingValid(Began(l, device, id, v).ring) && Recent(Began(l, device, id, v))
  {
    KeptShape(l);
    hide NotesKept, Budget, FindEntry;
    var t, e := Began(l, device, id, v), Note(id, device, v);
    JustUsed(l.ring, e);
    forall k | 0 <= k < |t.runs| <= k + 7
      ensures t.places[k] < REMEMBERED && t.owners[t.places[k]] == Some(k)
        && Budget(t.ring, t.places[k]) + |t.runs| >= k + 7
    {
      if k < |l.runs| {
        RememberSpends(l.ring, e, l.places[k]);
      }
    }
  }

  lemma KeptShape(l: Ledger)
    requires NotesKept(l)
    ensures |l.places| == |l.runs| && |l.owners| == REMEMBERED
  {
  }

  lemma AnswerKeeps(l: Ledger, device: u64, id: Id, v: Verdict)
    requires LedgerInv(l) && Fits(l, Answer(device, id, v))
    ensures LedgerInv(Began(l, device, id, v))
  {
    BeganChronicled(l, device, id, v);
    BeganKept(l, device, id, v);
    BeganRecent(l, device, id, v);
    hide Chronicled, NotesKept, Recent, Remember;
  }

  lemma AwaitKeeps(l: Ledger, device: u64, id: Id)
    requires LedgerInv(l) && Fits(l, Await(device, id))
    ensures LedgerInv(Awaiting(l, device, id))
  {
    var b, t := Began(l, device, id, WAITING), Awaiting(l, device, id);
    BeganChronicled(l, device, id, WAITING);
    BeganKept(l, device, id, WAITING);
    BeganRecent(l, device, id, WAITING);
    JustUsed(l.ring, Note(id, device, WAITING));
    assert Chronicled(t) by {
      assert t.told == b.told && t.runs == b.runs;
    }
    assert NotesKept(t) by {
      forall i | 0 <= i < REMEMBERED ensures SlotKept(t, i) {
        assert SlotKept(b, i);
      }
    }
    hide Chronicled, NotesKept, Remember;
    assert Recent(t) by {
      DistanceSame(b.ring, t.ring);
      hide Distance;
      assert forall s: nat | s < REMEMBERED :: Budget(t.ring, s) >= Budget(b.ring, s);
    }
  }

  lemma FinishKeeps(l: Ledger, v: Verdict)
    requires LedgerInv(l) && Fits(l, Finish(v))
    ensures LedgerInv(Ended(l, v))
  {
    var t, p := Ended(l, v), l.ring.pending.value;
    assert SlotKept(l, p) && Awaits(l.runs[l.serial]);
    EndedChronicled(l, v);
    EndedKept(l, v);
    hide Chronicled, NotesKept;
    DistanceSame(l.ring, t.ring);
    hide Distance;
    assert forall s: nat | s < REMEMBERED :: Budget(t.ring, s) >= Budget(l.ring, s);
    hide Budget;
    KeptShape(t);
    KeptShape(l);
  }

  lemma EndedChronicled(l: Ledger, v: Verdict)
    requires LedgerInv(l) && Fits(l, Finish(v))
    ensures Chronicled(Ended(l, v))
  {
    var t := Ended(l, v);
    hide NotesKept, Recent, FindEntry;
    assert Awaits(l.runs[l.serial]) && RunTold(l.told, l.runs[l.serial], l.serial);
    forall k | 0 <= k < |t.runs| ensures RunTold(t.told, t.runs[k], k) {
      assert RunTold(l.told, l.runs[k], k);
    }
    forall i | 0 <= i < |t.told| ensures Accounted(t.runs, t.told[i], i) {
      if i < |l.told| {
        assert Accounted(l.runs, l.told[i], i);
      }
    }
  }

  lemma EndedKept(l: Ledger, v: Verdict)
    requires LedgerInv(l) && Fits(l, Finish(v))
    ensures NotesKept(Ended(l, v))
  {
    var t, p := Ended(l, v), l.ring.pending.value;
    hide Chronicled, Recent, FindEntry;
    assert SlotKept(l, p);
    forall i | 0 <= i < REMEMBERED ensures SlotKept(t, i) {
      assert SlotKept(l, i);
    }
    forall i, j | 0 <= i < REMEMBERED && 0 <= j < REMEMBERED
      && Is(t.ring.slots[i], t.ring.slots[j].device, t.ring.slots[j].id)
      ensures i == j
    {
      assert Is(l.ring.slots[i], l.ring.slots[j].device, l.ring.slots[j].id);
    }
  }

  lemma RepeatKeeps(l: Ledger, i: nat)
    requires LedgerInv(l) && Fits(l, Repeat(i))
    ensures SlotKept(l, i) && LedgerInv(Repeated(l, i))
  {
    assert SlotKept(l, i);
    var t, k := Repeated(l, i), l.owners[i].value;
    hide FindEntry, Recent;
    assert RunTold(l.told, l.runs[k], k);
    forall j | 0 <= j < |t.told| ensures Accounted(t.runs, t.told[j], j) {
      if j < |l.told| {
        assert Accounted(l.runs, l.told[j], j);
      }
    }
    forall j | 0 <= j < |t.runs| ensures RunTold(t.told, t.runs[j], j) {
      assert RunTold(l.told, l.runs[j], j);
    }
    assert Chronicled(t);
    hide Chronicled;
    RepeatedSame(l, i);
  }

  /** A found note is its owner's. */
  lemma FoundNote(l: Ledger, device: u64, id: Id)
    requires LedgerInv(l) && FindEntry(l.ring.slots, device, id, REMEMBERED).Some?
    ensures
      var i := FindEntry(l.ring.slots, device, id, REMEMBERED).value;
      && i < REMEMBERED && l.ring.slots[i].id == id && l.ring.slots[i].device == device && |l.owners| == REMEMBERED
      && l.owners[i].Some? && Fits(l, Repeat(i))
  {
    hide Chronicled, Recent, OneAwaits;
    assert SlotKept(l, FindEntry(l.ring.slots, device, id, REMEMBERED).value);
  }

  /** Answering the pending command does not make another one seen. */
  lemma FinishedFinds(l: Ledger, v: Verdict, device: u64, id: Id)
    requires LedgerInv(l) && Fits(l, Finish(v)) && FindEntry(l.ring.slots, device, id, REMEMBERED).None?
    ensures FindEntry(Ended(l, v).ring.slots, device, id, REMEMBERED).None?
  {
    hide Chronicled, Recent;
    var p := l.ring.pending.value;
    assert SlotKept(l, p) && !Is(l.ring.slots[p], device, id);
  }

  lemma InvShape(l: Ledger)
    requires LedgerInv(l)
    ensures RingValid(l.ring) && |l.owners| == REMEMBERED && |l.places| == |l.runs|
    ensures l.ring.pending.Some? ==>
      var p := l.ring.pending.value;
      && l.serial < |l.runs| && Awaits(l.runs[l.serial])
      && l.ring.slots[p].id == l.runs[l.serial].id && l.ring.slots[p].device == l.runs[l.serial].device
  {
    hide Chronicled, Recent, FindEntry;
    if l.ring.pending.Some? {
      assert SlotKept(l, l.ring.pending.value);
    }
  }

  /** A repeat changes nothing but what was told. */
  lemma RepeatedSame(l: Ledger, i: nat)
    requires LedgerInv(l) && Fits(l, Repeat(i)) && l.owners[i].Some?
    ensures OneAwaits(Repeated(l, i)) && NotesKept(Repeated(l, i)) && Recent(Repeated(l, i))
  {
    hide Chronicled, FindEntry;
    forall j | 0 <= j < REMEMBERED ensures SlotKept(Repeated(l, i), j) {
      assert SlotKept(l, j);
    }
  }

  lemma MadeKeeps(l: Ledger, mv: Move)
    requires LedgerInv(l) && Fits(l, mv)
    ensures LedgerInv(Made(l, mv))
  {
    match mv
    case Repeat(i) => RepeatKeeps(l, i);
    case Answer(device, id, v) => AnswerKeeps(l, device, id, v);
    case Await(device, id) => AwaitKeeps(l, device, id);
    case Finish(v) => FinishKeeps(l, v);
  }

  // ------------------------------------------------------------------ over every sequence of calls

  ghost predicate Possible(l: Ledger, ms: seq<Move>)
    requires LedgerInv(l)
    decreases ms
  {
    ms == [] || (Fits(l, ms[0]) && (MadeKeeps(l, ms[0]); Possible(Made(l, ms[0]), ms[1..])))
  }

  ghost function AfterAll(l: Ledger, ms: seq<Move>): (t: Ledger)
    requires LedgerInv(l) && Possible(l, ms)
    ensures LedgerInv(t)
    decreases ms
  {
    if ms == [] then l else MadeKeeps(l, ms[0]); AfterAll(Made(l, ms[0]), ms[1..])
  }

  lemma OneMove(l: Ledger, ms: seq<Move>)
    requires LedgerInv(l) && |ms| <= 1 && (|ms| == 1 ==> Fits(l, ms[0]))
    ensures Possible(l, ms) && AfterAll(l, ms) == if ms == [] then l else Made(l, ms[0])
  {
    hide LedgerInv, Fits, Made;
    if |ms| == 1 {
      MadeKeeps(l, ms[0]);
      assert ms[1..] == [];
    }
  }

  lemma MoreMoves(l: Ledger, mv: Move, ms: seq<Move>)
    requires LedgerInv(l) && Fits(l, mv) && LedgerInv(Made(l, mv)) && Possible(Made(l, mv), ms)
    ensures Possible(l, [mv] + ms) && AfterAll(l, [mv] + ms) == AfterAll(Made(l, mv), ms)
  {
    hide LedgerInv, Fits, Made;
    assert ([mv] + ms)[0] == mv && ([mv] + ms)[1..] == ms;
  }

  /** No command with this id ran for the device. */
  ghost predicate Unseen(l: Ledger, device: u64, id: Id)
  {
    forall k | 0 <= k < |l.runs| :: l.runs[k].device != device || l.runs[k].id != id
  }

  /** The command ran and was told the answer, its first; nothing else was told. */
  ghost predicate ToldFirst(l: Ledger, t: Ledger, device: u64, id: Id, v: Verdict)
  {
    && t.told == l.told + [Told(device, id, v, First(|l.runs|))]
    && t.runs == l.runs + [RunOf(device, id, v, |l.told|, None)]
  }

  /** The pending command was told its one final answer, and no other awaits one. */
  ghost predicate ToldFinal(l: Ledger, t: Ledger, v: Verdict)
  {
    && l.serial < |l.runs| && t.ring.pending.None?
    && t.told == l.told + [Told(l.runs[l.serial].device, l.runs[l.serial].id, v, Final(l.serial))]
  }

  /** The command was told it is pending, and awaits its final answer; an earlier pending one was superseded. */
  ghost predicate ToldPending(l: Ledger, t: Ledger, device: u64, id: Id)
  {
    && t.ring.pending.Some? && t.serial == |l.runs| && |t.runs| == |l.runs| + 1
    && t.runs[t.serial] == RunOf(device, id, WAITING, t.runs[t.serial].at, None) && t.runs[t.serial].at == |t.told| - 1
    && (if l.ring.pending.Some? then
          && l.serial < |l.runs|
          && t.told == l.told + [Told(l.runs[l.serial].device, l.runs[l.serial].id, SUPERSEDED, Final(l.serial)),
                                 Told(device, id, WAITING, First(|l.runs|))]
        else t.told == l.told + [Told(device, id, WAITING, First(|l.runs|))])
  }

  lemma UnseenNew(l: Ledger, device: u64, id: Id)
    requires LedgerInv(l) && Unseen(l, device, id)
    ensures FindEntry(l.ring.slots, device, id, REMEMBERED).None?
  {
    hide Chronicled, Recent, OneAwaits;
    forall i | 0 <= i < REMEMBERED ensures !Is(l.ring.slots[i], device, id) {
      assert SlotKept(l, i);
    }
  }

  /** What is told when a command is answered at once. */
  lemma AnswerTold(l: Ledger, device: u64, id: Id, v: Verdict)
    requires LedgerInv(l) && Fits(l, Answer(device, id, v))
    ensures ToldFirst(l, Made(l, Answer(device, id, v)), device, id, v)
    ensures Made(l, Answer(device, id, v)).ring.pending == l.ring.pending
    ensures Made(l, Answer(device, id, v)).serial == l.serial
  {
  }

  /** What is told when the pending command is. */
  lemma FinishTold(l: Ledger, v: Verdict)
    requires LedgerInv(l) && Fits(l, Finish(v))
    ensures ToldFinal(l, Made(l, Finish(v)), v) && |Made(l, Finish(v)).runs| == |l.runs|
  {
    hide Chronicled, Recent, NotesKept;
  }

  /** What is told when a command is to be answered later. */
  lemma AwaitTold(l: Ledger, device: u64, id: Id)
    requires LedgerInv(l) && Fits(l, Await(device, id))
    ensures ToldFirst(l, Made(l, Await(device, id)), device, id, WAITING)
    ensures Made(l, Await(device, id)).ring.pending.Some? && Made(l, Await(device, id)).serial == |l.runs|
  {
  }

  /** Results told are not taken back; a command that ran keeps its first answer, and its final one once it has it. */
  ghost predicate Grown(l: Ledger, t: Ledger)
  {
    && l.told <= t.told && |l.runs| <= |t.runs|
    && forall k | 0 <= k < |l.runs| ::
         && t.runs[k] == l.runs[k].(end := t.runs[k].end)
         && (l.runs[k].end.Some? ==> t.runs[k].end == l.runs[k].end)
  }

  lemma MadeGrows(l: Ledger, mv: Move)
    requires LedgerInv(l) && Fits(l, mv)
    ensures Grown(l, Made(l, mv))
  {
    hide Chronicled, NotesKept, Recent, FindEntry;
    if mv.Finish? {
      assert Awaits(l.runs[l.serial]);
    }
  }

  lemma {:induction false} EveryLedger(l: Ledger, ms: seq<Move>)
    requires LedgerInv(l) && Possible(l, ms)
    ensures LedgerInv(AfterAll(l, ms)) && Grown(l, AfterAll(l, ms))
    decreases ms
  {
    hide LedgerInv, Fits, Made;
    if ms != [] {
      MadeKeeps(l, ms[0]);
      MadeGrows(l, ms[0]);
      EveryLedger(Made(l, ms[0]), ms[1..]);
    }
  }

  /** Each of the last seven commands is found, with its latest answer. */
  lemma RecentFound(l: Ledger, k: nat)
    requires LedgerInv(l) && k < |l.runs| <= k + 7
    ensures l.places[k] < REMEMBERED && l.ring.slots[l.places[k]] == NoteOf(l.runs[k])
      && l.owners[l.places[k]] == Some(k)
    ensures FindEntry(l.ring.slots, l.runs[k].device, l.runs[k].id, REMEMBERED) == Some(l.places[k])
  {
    hide Chronicled, OneAwaits, Budget;
    assert SlotKept(l, l.places[k]);
    assert Is(l.ring.slots[l.places[k]], l.runs[k].device, l.runs[k].id);
  }

  /** Whichever of the last seven commands is the repeated one, it is the note found. */
  lemma RecentSeen(l: Ledger, device: u64, id: Id)
    requires LedgerInv(l)
    ensures |l.places| == |l.runs| && |l.owners| == REMEMBERED
    ensures forall k | 0 <= k < |l.runs| <= k + 7 && l.runs[k].device == device && l.runs[k].id == id ::
      && l.places[k] < REMEMBERED && FindEntry(l.ring.slots, device, id, REMEMBERED) == Some(l.places[k])
      && l.owners[l.places[k]] == Some(k) && l.ring.slots[l.places[k]] == NoteOf(l.runs[k])
  {
    InvShape(l);
    hide LedgerInv, FindEntry;
    forall k | 0 <= k < |l.runs| <= k + 7 && l.runs[k].device == device && l.runs[k].id == id
      ensures l.places[k] < REMEMBERED && FindEntry(l.ring.slots, device, id, REMEMBERED) == Some(l.places[k])
      ensures l.owners[l.places[k]] == Some(k) && l.ring.slots[l.places[k]] == NoteOf(l.runs[k])
    {
      RecentFound(l, k);
    }
  }

  /**
   * Whatever is told, answered, awaited or superseded meanwhile: as long as no more than six
   * other commands ran after it, repeating a command finds it and tells its latest answer.
   */
  lemma RememberedForSix(l: Ledger, ms: seq<Move>, k: nat)
    requires LedgerInv(l) && Possible(l, ms) && k < |l.runs| && |AfterAll(l, ms).runs| <= k + 7
    ensures
      var t := AfterAll(l, ms);
      && k < |t.runs| && LedgerInv(t)
      && var found := FindEntry(t.ring.slots, l.runs[k].device, l.runs[k].id, REMEMBERED);
         && found.Some? && Fits(t, Repeat(found.value))
         && Made(t, Repeat(found.value))
              == t.(told := t.told + [Told(l.runs[k].device, l.runs[k].id, LastAnswer(t.runs[k]), Replayed(k))])
  {
    var t := AfterAll(l, ms);
    EveryLedger(l, ms);
    hide Possible, AfterAll;
    RecentFound(t, k);
    hide LedgerInv, FindEntry;
  }

  /**
   * A command told Waiting has, once it is no longer the pending one, exactly one final
   * result, after the first, for the same command; until then its repeats are told Waiting,
   * and from then on they are told that result.
   */
  lemma OneFinalResult(l: Ledger, k: nat)
    requires LedgerInv(l) && k < |l.runs| && l.runs[k].first.status.Waiting?
    ensures l.runs[k].end.None? <==> l.ring.pending.Some? && l.serial == k
    ensures l.runs[k].end.None? ==> forall j | 0 <= j < |l.told| && l.told[j].cause.run == k ::
      l.told[j].verdict.status.Waiting?
    ensures l.runs[k].end.Some? ==>
      var i := l.runs[k].end.value.at;
      && l.runs[k].at < i < |l.told| && l.told[i].cause == Final(k)
      && l.told[i].id == l.runs[k].id && l.told[i].device == l.runs[k].device && !l.told[i].verdict.status.Waiting?
      && (forall j | 0 <= j < |l.told| && l.told[j].cause == Final(k) :: j == i)
      && (forall j | 0 <= j < i && l.told[j].cause.run == k :: l.told[j].verdict.status.Waiting?)
      && (forall j | i < j < |l.told| && l.told[j].cause.run == k ::
          l.told[j].cause.Replayed? && l.told[j].verdict == l.told[i].verdict)
  {
    hide NotesKept, Recent, FindEntry;
    assert RunTold(l.told, l.runs[k], k);
    forall j | 0 <= j < |l.told| && l.told[j].cause.run == k ensures Accounted(l.runs, l.told[j], j) {
    }
  }

  /** A command answered at once is told that answer only, in every repeat too. */
  lemma OneAnswer(l: Ledger, k: nat)
    requires LedgerInv(l) && k < |l.runs| && !l.runs[k].first.status.Waiting?
    ensures forall j | 0 <= j < |l.told| && l.told[j].cause.run == k ::
      l.told[j].verdict == l.runs[k].first && (l.told[j].cause.Replayed? || j == l.runs[k].at)
  {
    hide NotesKept, Recent, FindEntry;
    assert RunTold(l.told, l.runs[k], k);
    forall j | 0 <= j < |l.told| && l.told[j].cause.run == k ensures Accounted(l.runs, l.told[j], j) {
    }
  }
}
