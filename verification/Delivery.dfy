// The delivery protocol (delivery.cpp): the receiving side over its durable journal, and the
// node's sender.
module Delivery {
  import opened Wire
  import opened Protocol
  import opened Codec
  import opened Records
  import opened Store
  import opened StoreInvariant
  import opened StoreOps
  import opened StoreRuns
  import opened StoreObject
  import opened StoreLaws

  const MAX_ATTEMPTS := 3

  // ------------------------------------------------------------------ the acknowledgement of a sample

  function TagOf(f: Frame): Tag
    requires |f| >= TAG_SIZE
  {
    f[|f| - TAG_SIZE..]
  }

  /** The ACK message that answers a DATA frame. */
  function AckMessage(f: Frame, counter: u64, power: i8): Message
    requires 48 <= |f|
  {
    Message(AckKind, f[4], counter, NO_DATA, TagOf(f), if f[4] == WIRE_V2 then power else KEEP_POWER)
  }

  function OwnerOf(a: Accepted): Binding { Binding(a.network, a.node, a.key, true) }

  /** The one ACK of an accepted sample. */
  function AckFrame(c: Crypto, a: Accepted): Frame
    requires 48 <= |a.frame|
  {
    SealFrame(c, OwnerOf(a), AckMessage(a.frame, a.counter, a.ackPower))
  }

  // ------------------------------------------------------------------ receive

  /** What `receive` decides from the journal, before any commit. */
  datatype Verdict =
    | Refused(result: Result)
    | Repeat(stored: ReceiptRecord)
    | Fresh(expected: u64, receipt: Receipt)

  ghost function Judge(cfg: Config, m: Mem, b: Binding, f: Frame, link: Link, power: i8): Verdict
  {
    match Open(cfg.c, b, f)
    case Failed(reason) => Refused(reason)
    case Done(x) =>
      var found := Authorized(m, b);
      if !x.kind.DataKind? then Refused(Result.Invalid)
      else if found.None? || !cfg.role.Receiver? then Refused(StorageError)
      else
        var last := m.receipts[found.value];
        if x.counter < last.counter then Refused(Replay)
        else if x.counter == last.counter then if last.last == f then Repeat(last) else Refused(Conflict)
        else Fresh(last.counter, Receipt(x.counter, f, link, if x.version == WIRE_V2 then power else KEEP_POWER))
  }

  /**
   * One call of `receive`: it refuses, or repeats the stored acknowledgement, or commits and
   * then acknowledges. `ack` is empty unless the result is Ok or Duplicate.
   */
  ghost predicate ReceiveStep(cfg: Config, s: State, b: Binding, f: Frame, link: Link, power: i8,
                              t: State, result: Result, ack: Frame)
  {
    match Judge(cfg, s.m, b, f, link, power)
    case Refused(reason) => t == s && result == reason && ack == []
    case Repeat(receipt) =>
      && t == s && result == Duplicate && 48 <= |f|
      && ack == SealFrame(cfg.c, b, AckMessage(f, receipt.counter, receipt.ackPower))
    case Fresh(expected, receipt) =>
      && Followed(cfg, s, OpCommit(b, expected, receipt), t, result)
      && 48 <= |f|
      && ack == (if result == Ok then SealFrame(cfg.c, b, AckMessage(f, receipt.counter, receipt.ackPower)) else [])
  }

  /** No write failed during the call. */
  ghost predicate ReceivedWhole(cfg: Config, s: State, b: Binding, f: Frame, link: Link, power: i8, t: State,
                                result: Result)
  {
    match Judge(cfg, s.m, b, f, link, power)
    case Fresh(expected, receipt) => Faultless(cfg, s, OpCommit(b, expected, receipt), t, result)
    case _ => true
  }

  /** The acknowledgement a node that sent the frame opens: of its counter, over its tag, under its version. */
  ghost predicate Answers(cfg: Config, b: Binding, f: Frame, counter: u64, power: i8, ack: Frame)
  {
    && 48 <= |f|
    && Open(cfg.c, b, ack)
       == Done(Message(AckKind, f[4], counter, NO_DATA, f[|f| - 16..], if f[4] == 2 then power else KEEP_POWER))
  }

  lemma AnswerOpens(cfg: Config, b: Binding, f: Frame, counter: u64, power: i8)
    requires Codec.Usable(b) && 48 <= |f| && KnownVersion(f[4]) && counter != 0
    ensures Answers(cfg, b, f, counter, power, SealFrame(cfg.c, b, AckMessage(f, counter, power)))
  {
    hide Seal, SealFrame, Open;
    AckSeals(cfg.c, b, f, counter, power);
    OpenSeal(cfg.c, b, AckMessage(f, counter, power));
  }

  /** A healthy receiver with an active enrollment of the binding. */
  ghost predicate Serves(cfg: Config, s: State, b: Binding)
  {
    s.m.health == Ready && cfg.role.Receiver? && exists i: nat :: Binds(s, b, i)
  }

  /** A frame that does not open, opens as something else, or comes for no enrollment here changes nothing. */
  lemma ReceiveRefuses(cfg: Config, s: State, b: Binding, f: Frame, link: Link, power: i8, t: State, result: Result,
                       ack: Frame)
    requires SystemInv(cfg, s.m, s.d, s.h) && ReceiveStep(cfg, s, b, f, link, power, t, result, ack)
    ensures Open(cfg.c, b, f).Failed? ==> result == Open(cfg.c, b, f).reason && t == s && ack == []
    ensures Open(cfg.c, b, f).Done? && Open(cfg.c, b, f).value.kind.AckKind? ==>
      result == Result.Invalid && t == s && ack == []
    ensures Open(cfg.c, b, f).Done? && Open(cfg.c, b, f).value.kind.DataKind? && !Serves(cfg, s, b) ==>
      result == StorageError && t == s && ack == []
  {
    hide SystemInv, Open, SealFrame, Followed;
    if s.m.health == Ready {
      BindingFound(cfg, s, b);
    }
  }

  /**
   * What a sample from an enrolled node meets, by its counter and the stored receipt: one below it is a
   * replay; the same one is a duplicate when the bytes are the same and a conflict otherwise; every
   * greater one, whatever the gap, is accepted, logged once and acknowledged when no write fails.
   */
  lemma ReceiveLaw(cfg: Config, s: State, b: Binding, f: Frame, link: Link, power: i8, t: State, result: Result,
                   ack: Frame, i: nat)
    requires SystemInv(cfg, s.m, s.d, s.h) && s.m.health == Ready && cfg.role.Receiver? && Binds(s, b, i)
    requires ReceiveStep(cfg, s, b, f, link, power, t, result, ack)
    requires Open(cfg.c, b, f).Done? && Open(cfg.c, b, f).value.kind.DataKind?
    ensures
      var n, last := Open(cfg.c, b, f).value.counter, s.m.receipts[i];
      var told := if f[4] == 2 then power else KEEP_POWER;
      && (result == Replay <==> n < last.counter)
      && (result == Duplicate <==> n == last.counter && f == last.last)
      && (result == Conflict <==> n == last.counter && f != last.last)
      && (n <= last.counter ==> t == s)
      && (n > last.counter && result == Ok ==> Appends(s, i, Receipt(n, f, link, told), t))
      && (n > last.counter && result != Ok ==> result == StorageError && t.m.health != Ready)
      && (n > last.counter && ReceivedWhole(cfg, s, b, f, link, power, t, result) ==>
            Appends(s, i, Receipt(n, f, link, told), t) && Supersedes(s, b.node, i, t, result))
      && (result == Ok ==> Answers(cfg, b, f, n, told, ack))
      && (result == Duplicate ==> Answers(cfg, b, f, n, last.ackPower, ack))
      && (result != Ok && result != Duplicate ==> ack == [])
  {
    BindingFound(cfg, s, b);
    OpenedIsUsable(cfg.c, b, f);
    hide SystemInv, Open, SealFrame, Followed, Faultless, Appends, Supersedes, Answers, AckMessage, Authorized;
    var x, last := Open(cfg.c, b, f).value, s.m.receipts[i];
    var told := if f[4] == 2 then power else KEEP_POWER;
    if x.counter == last.counter {
      AnswerOpens(cfg, b, f, x.counter, last.ackPower);
    } else if x.counter > last.counter {
      AnswerOpens(cfg, b, f, x.counter, told);
      FreshLaw(cfg, s, b, f, link, told, t, result, i);
    }
  }

  lemma FreshLaw(cfg: Config, s: State, b: Binding, f: Frame, link: Link, told: i8, t: State, result: Result, i: nat)
    requires SystemInv(cfg, s.m, s.d, s.h) && s.m.health == Ready && cfg.role.Receiver? && Binds(s, b, i)
    requires Open(cfg.c, b, f).Done? && Open(cfg.c, b, f).value.kind.DataKind?
    requires Open(cfg.c, b, f).value.counter > s.m.receipts[i].counter
    requires
      var op := OpCommit(b, s.m.receipts[i].counter, Receipt(Open(cfg.c, b, f).value.counter, f, link, told));
      Followed(cfg, s, op, t, result)
    ensures
      var receipt := Receipt(Open(cfg.c, b, f).value.counter, f, link, told);
      var op := OpCommit(b, s.m.receipts[i].counter, receipt);
      && (Faultless(cfg, s, op, t, result) ==>
            Appends(s, i, receipt, t) && Supersedes(s, b.node, i, t, result))
      && (result == Ok ==> Appends(s, i, receipt, t))
      && (result != Ok ==> result == StorageError && t.m.health != Ready)
  {
    hide SystemInv, Open, Followed, Faultless, Appends;
    var receipt := Receipt(Open(cfg.c, b, f).value.counter, f, link, told);
    var op := OpCommit(b, s.m.receipts[i].counter, receipt);
    FaultlessOrLatched(cfg, s, op, t, result);
    if Faultless(cfg, s, op, t, result) {
      CommitLaw(cfg, s, b, s.m.receipts[i].counter, receipt, t, result);
    }
  }

  lemma OpenedIsUsable(c: Crypto, b: Binding, f: Frame)
    requires Open(c, b, f).Done?
    ensures Codec.Usable(b) && 48 <= |f| && KnownVersion(f[4]) && Open(c, b, f).value.version == f[4]
    ensures Open(c, b, f).value.counter != 0
  {
    OpenedFields(c, b, f);
  }

  lemma FreshIsAllowed(cfg: Config, s: State, b: Binding, f: Frame, link: Link, power: i8)
    requires Judge(cfg, s.m, b, f, link, power).Fresh? && |s.h.log| < UINT64_MAX
    ensures
      var v := Judge(cfg, s.m, b, f, link, power);
      Allowed(cfg, s.m, s.d, s.h, OpCommit(b, v.expected, v.receipt))
  {
    OpenedIsUsable(cfg.c, b, f);
  }

  lemma AckSeals(c: Crypto, b: Binding, f: Frame, counter: u64, power: i8)
    requires Codec.Usable(b) && 48 <= |f| && KnownVersion(f[4]) && counter != 0
    ensures Seal(c, b, AckMessage(f, counter, power)) == Done(SealFrame(c, b, AckMessage(f, counter, power)))
  {
  }

  /** A repeated frame is the one in the receipt of its binding's slot. */
  lemma RepeatSlot(cfg: Config, s: State, b: Binding, f: Frame, link: Link, power: i8)
    requires Judge(cfg, s.m, b, f, link, power).Repeat?
    ensures 48 <= |f| && Authorized(s.m, b).Some? && s.m.health == Ready && cfg.role.Receiver?
    ensures
      var slot := Authorized(s.m, b).value;
      && s.m.receipts[slot].counter != 0 && s.m.receipts[slot] == Judge(cfg, s.m, b, f, link, power).stored
        && s.m.receipts[slot].last == f
      && Binding(s.m.registry.network, s.m.registry.entries[slot].node, s.m.registry.entries[slot].key, true) == b
  {
    OpenedIsUsable(cfg.c, b, f);
  }

  /** `receive` over the durable store. */
  method Receive(store: PersistentStore, b: Binding, f: Frame, link: Link, power: i8)
    returns (result: Result, ack: Frame)
    requires store.Valid() && |store.history.log| < UINT64_MAX
    modifies store, store.records
    ensures store.Valid() && store.records.faults >= old(store.records.faults)
    ensures ReceiveStep(store.cfg, old(store.Now()), b, f, link, power, store.Now(), result, ack)
    ensures store.records.faults == old(store.records.faults) ==>
      ReceivedWhole(store.cfg, old(store.Now()), b, f, link, power, store.Now(), result)
  {
    hide Open, SystemInv, Followed, Faultless, Allowed, StoreBytes.View, Seal, SealFrame;
    var decoded, m := RunOpen(store.cfg.c, b, f);
    if decoded != Ok {
      return decoded, [];
    }
    if !m.kind.DataKind? {
      return Result.Invalid, [];
    }
    var found, last := store.LoadReceipt(b);
    if !found {
      return StorageError, [];
    }
    if m.counter < last.counter {
      return Replay, [];
    }
    var duplicate := m.counter == last.counter;
    if duplicate && last.last != f {
      return Conflict, [];
    }
    OpenedIsUsable(store.cfg.c, b, f);
    if duplicate {
      ack := Answer(store.cfg.c, b, f, m.counter, last.ackPower);
      return Duplicate, ack;
    }
    result, ack := ReceiveNew(store, b, f, link, power, m, last.counter);
  }

  lemma FreshStep(cfg: Config, s: State, b: Binding, f: Frame, link: Link, power: i8, t: State, result: Result,
                  ack: Frame, expected: u64, receipt: Receipt)
    requires Judge(cfg, s.m, b, f, link, power) == Fresh(expected, receipt) && 48 <= |f|
    requires Followed(cfg, s, OpCommit(b, expected, receipt), t, result)
    requires ack == if result == Ok then SealFrame(cfg.c, b, AckMessage(f, receipt.counter, receipt.ackPower)) else []
    ensures ReceiveStep(cfg, s, b, f, link, power, t, result, ack)
    ensures ReceivedWhole(cfg, s, b, f, link, power, t, result)
       <==> Faultless(cfg, s, OpCommit(b, expected, receipt), t, result)
  {
    hide Judge, Followed, Faultless, SealFrame, AckMessage;
  }

  /** A frame newer than the receipt: durable first, then acknowledged. */
  method ReceiveNew(store: PersistentStore, b: Binding, f: Frame, link: Link, power: i8, m: Message, expected: u64)
    returns (result: Result, ack: Frame)
    requires store.Valid() && |store.history.log| < UINT64_MAX
    requires Open(store.cfg.c, b, f) == Done(m)
    requires Judge(store.cfg, store.Memory(), b, f, link, power)
      == Fresh(expected, Receipt(m.counter, f, link, if m.version == WIRE_V2 then power else KEEP_POWER))
    modifies store, store.records
    ensures store.Valid() && store.records.faults >= old(store.records.faults)
    ensures ReceiveStep(store.cfg, old(store.Now()), b, f, link, power, store.Now(), result, ack)
    ensures store.records.faults == old(store.records.faults) ==>
      ReceivedWhole(store.cfg, old(store.Now()), b, f, link, power, store.Now(), result)
  {
    ghost var s := store.Now();
    hide Open, SystemInv, Followed, Faultless, Allowed, StoreBytes.View, Seal, SealFrame, Judge,
      ReceiveStep, ReceivedWhole, AckMessage;
    OpenedIsUsable(store.cfg.c, b, f);
    FreshIsAllowed(store.cfg, s, b, f, link, power);
    var receipt := Receipt(m.counter, f, link, if m.version == WIRE_V2 then power else KEEP_POWER);
    result := store.Commit(b, expected, receipt);
    ack := [];
    if result == Ok {
      ack := Answer(store.cfg.c, b, f, m.counter, receipt.ackPower);
    }
    FreshStep(store.cfg, s, b, f, link, power, store.Now(), result, ack, expected, receipt);
  }

  /** Seals the acknowledgement of an authenticated frame. */
  method Answer(c: Crypto, b: Binding, f: Frame, counter: u64, power: i8) returns (ack: Frame)
    requires Codec.Usable(b) && 48 <= |f| && KnownVersion(f[4]) && counter != 0
    ensures ack == SealFrame(c, b, AckMessage(f, counter, power))
  {
    hide Seal, SealFrame;
    AckSeals(c, b, f, counter, power);
    var sealing, reply := RunSeal(c, b, AckMessage(f, counter, power));
    return reply;
  }

  // ------------------------------------------------------------------ the sender

  /** The fields of `Sender`; an empty frame means nothing is pending. */
  datatype SenderState = SenderState(
    binding: Binding, pending: Frame, counter: u64, attempts: nat, version: byte, power: i8, delivered: bool)

  const NO_BINDING := Binding(0, 0, ZERO16, false)
  const IDLE_SENDER := SenderState(NO_BINDING, [], 0, 0, WIRE_V1, KEEP_POWER, false)

  /** Why `begin` refuses before it reserves a counter. */
  ghost function BeginRefusal(s: SenderState, b: Binding, data: Data, version: byte): Option<Result>
  {
    if s.pending != [] && !s.delivered then Some(Conflict)
    else if !Codec.Usable(b) then Some(Unauthorized)
    else if !ValidData(data) || !KnownVersion(version) then Some(Result.Invalid)
    else None
  }

  function DataMessage(data: Data, version: byte, counter: u64): Message
  {
    Message(DataKind, version, counter, data, ZERO16, KEEP_POWER)
  }

  /** The sender once a frame was sealed with a reserved counter. */
  function Begun(c: Crypto, b: Binding, data: Data, version: byte, counter: u64): SenderState
    requires data.count <= MAX_READINGS
  {
    SenderState(b, SealFrame(c, b, DataMessage(data, version, counter)), counter, 0, version, KEEP_POWER, false)
  }

  function Abandoned(s: SenderState): SenderState
  {
    s.(power := KEEP_POWER, pending := [], counter := 0, attempts := 0, delivered := false)
  }

  function Attempted(s: SenderState): SenderState { s.(attempts := s.attempts + 1) }

  predicate CanAttempt(s: SenderState) { s.pending != [] && !s.delivered && s.attempts < MAX_ATTEMPTS }

  /** The result of `acknowledge`. */
  ghost function AckResult(c: Crypto, s: SenderState, f: Frame): Result
  {
    if s.pending == [] || s.attempts == 0 || |s.pending| < TAG_SIZE then Result.Invalid
    else
      match Open(c, s.binding, f)
      case Failed(reason) => reason
      case Done(m) =>
        if m.kind.AckKind? && m.counter == s.counter && m.version == s.version && m.dataTag == TagOf(s.pending)
        then Ok else Result.Invalid
  }

  ghost function AfterAck(c: Crypto, s: SenderState, f: Frame): SenderState
  {
    if AckResult(c, s, f) == Ok then s.(delivered := true, power := Open(c, s.binding, f).value.powerDbm) else s
  }

  lemma DataSeals(c: Crypto, b: Binding, data: Data, version: byte, counter: u64)
    requires Codec.Usable(b) && ValidData(data) && KnownVersion(version) && counter != 0
    ensures Seal(c, b, DataMessage(data, version, counter))
      == Done(SealFrame(c, b, DataMessage(data, version, counter)))
    ensures 48 <= |SealFrame(c, b, DataMessage(data, version, counter))|
  {
    SealedHeader(c, b, DataMessage(data, version, counter));
  }

  /** One call of `begin`. A reservation that failed may still be durable; its counter is skipped. */
  ghost predicate BeginStep(cfg: Config, s: State, x: SenderState, b: Binding, data: Data, version: byte,
                            t: State, y: SenderState, result: Result)
  {
    match BeginRefusal(x, b, data, version)
    case Some(reason) => t == s && y == x && result == reason
    case None =>
      && Followed(cfg, s, OpReserve(b), t, result)
      && (result == Ok || result == StorageError)
      && (if result == Ok then
            && Authorized(t.m, b).Some?
            && y == Begun(cfg.c, b, data, version, t.m.registry.entries[Authorized(t.m, b).value].counter)
          else y == x)
  }

  /** No write failed during the call. */
  ghost predicate BegunWhole(cfg: Config, s: State, x: SenderState, b: Binding, data: Data, version: byte, t: State,
                             result: Result)
  {
    BeginRefusal(x, b, data, version).None? ==> Faultless(cfg, s, OpReserve(b), t, result)
  }

  /** The enrollment has a counter left, and the store a revision to reserve it under. */
  ghost predicate CanReserve(cfg: Config, s: State, b: Binding, i: nat)
  {
    s.m.health == Ready && Countable(cfg, s, b, i) && s.m.registry.revision != UINT64_MAX
  }

  ghost predicate WellMade(data: Data, version: byte) { ValidData(data) && (version == 1 || version == 2) }

  /**
   * When a new sample may be sent: not while an undelivered one is pending, and only when it is valid. Then
   * the frame is that sample, sealed under the next counter of the binding's enrollment; it is refused only
   * when no counter can be reserved or a write fails, and what was pending stays.
   */
  lemma BeginLaw(cfg: Config, s: State, x: SenderState, b: Binding, data: Data, version: byte, t: State,
                 y: SenderState, result: Result)
    requires SystemInv(cfg, s.m, s.d, s.h) && BeginStep(cfg, s, x, b, data, version, t, y, result)
    ensures result != Ok ==> y == x
    ensures x.pending != [] && !x.delivered ==> result == Conflict && t == s
    ensures (x.pending == [] || x.delivered) && !Codec.Usable(b) ==> result == Unauthorized && t == s
    ensures (x.pending == [] || x.delivered) && Codec.Usable(b) && !WellMade(data, version) ==>
      result == Result.Invalid && t == s
    ensures (x.pending == [] || x.delivered) && Codec.Usable(b) && WellMade(data, version) ==>
      && (result == Ok ==> exists i: nat :: CanReserve(cfg, s, b, i) && Began(cfg, s, b, data, version, t, y, i))
      && (result != Ok ==> result == StorageError)
      && (BegunWhole(cfg, s, x, b, data, version, t, result) && (exists i: nat :: CanReserve(cfg, s, b, i)) ==>
            result == Ok)
  {
    hide SystemInv, Followed, Faultless, SealFrame, Open, ValidData, Authorized, Began, CanReserve;
    if BeginRefusal(x, b, data, version).None? {
      var op := OpReserve(b);
      FaultlessOrLatched(cfg, s, op, t, result);
      if Faultless(cfg, s, op, t, result) {
        ReservedFor(cfg, s, b, t, result);
        if result == Ok {
          var i := ReservedAt(cfg, s, b, t);
          BegunOpens(cfg, s, b, data, version, t, y, i);
        }
      }
    }
  }

  /** What the sender then holds: a frame that opens as the sample, under the counter now durable. */
  ghost predicate Began(cfg: Config, s: State, b: Binding, data: Data, version: byte, t: State, y: SenderState, i: nat)
    requires i < BINDING_CAPACITY
  {
    var n := s.m.registry.entries[i].counter + 1;
    && t.m.health == Ready && t.m.registry.entries[i].counter == n
    && y == SenderState(b, y.pending, n, 0, version, KEEP_POWER, false)
    && Open(cfg.c, b, y.pending) == Done(Message(DataKind, version, n, NormalData(data), ZERO16, KEEP_POWER))
  }

  lemma ReservedFor(cfg: Config, s: State, b: Binding, t: State, result: Result)
    requires SystemInv(cfg, s.m, s.d, s.h) && Faultless(cfg, s, OpReserve(b), t, result)
    ensures result == Ok <==> exists i: nat :: CanReserve(cfg, s, b, i)
    ensures forall i: nat | CanReserve(cfg, s, b, i) ::
      && t.m.health == Ready && t.m.registry.network == s.m.registry.network
      && t.m.registry.entries
         == s.m.registry.entries[i := s.m.registry.entries[i].(counter := s.m.registry.entries[i].counter + 1)]
  {
    hide SystemInv, Faultless;
    if s.m.health == Ready {
      ReserveLaw(cfg, s, b, t, result);
      if i: nat :| Countable(cfg, s, b, i) {
        assert CanReserve(cfg, s, b, i) <==> s.m.registry.revision != UINT64_MAX;
      }
    } else {
      UnmountedRefuses(cfg, s, OpReserve(b), t, result);
    }
  }

  lemma ReservedAt(cfg: Config, s: State, b: Binding, t: State) returns (i: nat)
    requires SystemInv(cfg, s.m, s.d, s.h) && Faultless(cfg, s, OpReserve(b), t, Ok)
    ensures CanReserve(cfg, s, b, i) && Authorized(t.m, b) == Some(i)
    ensures t.m.health == Ready && t.m.registry.entries[i].counter == s.m.registry.entries[i].counter + 1
  {
    hide SystemInv, Faultless;
    ReservedFor(cfg, s, b, t, Ok);
    i :| CanReserve(cfg, s, b, i);
    FaultlessKeeps(cfg, s, OpReserve(b), t, Ok);
    assert Binds(t, b, i);
    BindingFound(cfg, t, b);
  }

  lemma BegunOpens(cfg: Config, s: State, b: Binding, data: Data, version: byte, t: State, y: SenderState, i: nat)
    requires i < BINDING_CAPACITY && Authorized(t.m, b) == Some(i) && t.m.health == Ready
    requires t.m.registry.entries[i].counter == s.m.registry.entries[i].counter + 1
    requires Codec.Usable(b) && ValidData(data) && KnownVersion(version)
    requires y == Begun(cfg.c, b, data, version, t.m.registry.entries[i].counter)
    ensures Began(cfg, s, b, data, version, t, y, i)
  {
    var n := t.m.registry.entries[i].counter;
    DataSeals(cfg.c, b, data, version, n);
    OpenSeal(cfg.c, b, DataMessage(data, version, n));
    hide Open, Seal, SealFrame, ValidData;
  }

  /** The acknowledgements of the pending frame that a receiver can seal, one for each power command. */
  ghost predicate AnswersPending(c: Crypto, x: SenderState, f: Frame, power: i8)
  {
    && TAG_SIZE <= |x.pending|
    && Seal(c, x.binding, Message(AckKind, x.version, x.counter, NO_DATA, x.pending[|x.pending| - TAG_SIZE..], power))
       == Done(f)
    && (x.version == WIRE_V2 || power == KEEP_POWER)
  }

  lemma FailuresAreNotOk(c: Crypto, b: Binding, f: Frame)
    ensures Open(c, b, f) != Failed(Ok)
  {
  }

  /** The sample counts as delivered exactly when the frame is such an acknowledgement, with its power command. */
  lemma AcknowledgeLaw(c: Crypto, x: SenderState, f: Frame)
    ensures AckResult(c, x, f) == Ok <==>
      x.pending != [] && x.attempts != 0 && exists power: i8 :: AnswersPending(c, x, f, power)
    ensures forall power: i8 | AckResult(c, x, f) == Ok && AnswersPending(c, x, f, power) ::
      AfterAck(c, x, f) == x.(delivered := true, power := power)
    ensures AckResult(c, x, f) != Ok ==> AfterAck(c, x, f) == x
  {
    hide Open, Seal;
    forall power: i8 | AnswersPending(c, x, f, power)
      ensures Open(c, x.binding, f).Done? && Open(c, x.binding, f).value.powerDbm == power
      ensures x.pending != [] && x.attempts != 0 ==> AckResult(c, x, f) == Ok
    {
      OpenSeal(c, x.binding, Message(AckKind, x.version, x.counter, NO_DATA, TagOf(x.pending), power));
    }
    FailuresAreNotOk(c, x.binding, f);
    if AckResult(c, x, f) == Ok {
      SealOpen(c, x.binding, f);
      assert AnswersPending(c, x, f, Open(c, x.binding, f).value.powerDbm);
    }
  }

  /** The sender holds a DATA frame of its own, already transmitted. */
  ghost predicate Transmitted(c: Crypto, x: SenderState)
  {
    && x.attempts != 0 && Open(c, x.binding, x.pending).Done?
    && var m := Open(c, x.binding, x.pending).value;
       m.kind.DataKind? && m.counter == x.counter && m.version == x.version
  }

  /** An answer to the pending frame is what its sender waits for. */
  lemma AnswerAccepted(cfg: Config, x: SenderState, power: i8, ack: Frame)
    requires Transmitted(cfg.c, x) && Answers(cfg, x.binding, x.pending, x.counter, power, ack)
    ensures AckResult(cfg.c, x, ack) == Ok
    ensures AfterAck(cfg.c, x, ack) == x.(delivered := true, power := if x.version == 2 then power else KEEP_POWER)
  {
    OpenedFields(cfg.c, x.binding, x.pending);
    hide Open;
  }

  /**
   * One exchange with nothing lost: a sample newer than the receipt is accepted and logged, and
   * the answer delivers it, with the power command the receiver gave.
   */
  lemma Delivers(cfg: Config, s: State, x: SenderState, i: nat, link: Link, power: i8, t: State, result: Result,
                 ack: Frame)
    requires SystemInv(cfg, s.m, s.d, s.h) && s.m.health == Ready && cfg.role.Receiver? && Binds(s, x.binding, i)
    requires Transmitted(cfg.c, x) && x.counter > s.m.receipts[i].counter && s.m.registry.revision != UINT64_MAX
    requires ReceiveStep(cfg, s, x.binding, x.pending, link, power, t, result, ack)
    requires ReceivedWhole(cfg, s, x.binding, x.pending, link, power, t, result)
    ensures Appends(s, i, Receipt(x.counter, x.pending, link, if x.version == 2 then power else KEEP_POWER), t)
    ensures AckResult(cfg.c, x, ack) == Ok
    ensures AfterAck(cfg.c, x, ack) == x.(delivered := true, power := if x.version == 2 then power else KEEP_POWER)
  {
    OpenedFields(cfg.c, x.binding, x.pending);
    hide SystemInv, Open, ReceiveStep, ReceivedWhole, Answers, AckResult, AfterAck, Appends;
    ReceiveLaw(cfg, s, x.binding, x.pending, link, power, t, result, ack, i);
    assert result == Ok by {
      AppendedOk(cfg, s, x.binding, i, t, result);
    }
    AnswerAccepted(cfg, x, if x.version == 2 then power else KEEP_POWER, ack);
  }

  lemma AppendedOk(cfg: Config, s: State, b: Binding, i: nat, t: State, result: Result)
    requires i < BINDING_CAPACITY && Supersedes(s, b.node, i, t, result) && s.m.registry.revision != UINT64_MAX
    ensures result == Ok
  {
  }

  /** When that answer was lost, the repeated frame is answered with the same command and logged no second time. */
  lemma Redelivers(cfg: Config, s: State, x: SenderState, i: nat, link: Link, power: i8, t: State, result: Result,
                   ack: Frame)
    requires SystemInv(cfg, s.m, s.d, s.h) && s.m.health == Ready && cfg.role.Receiver? && Binds(s, x.binding, i)
    requires Transmitted(cfg.c, x) && x.counter == s.m.receipts[i].counter && x.pending == s.m.receipts[i].last
    requires ReceiveStep(cfg, s, x.binding, x.pending, link, power, t, result, ack)
    ensures t == s && AckResult(cfg.c, x, ack) == Ok
    ensures AfterAck(cfg.c, x, ack)
      == x.(delivered := true, power := if x.version == 2 then s.m.receipts[i].ackPower else KEEP_POWER)
  {
    hide SystemInv, Open, ReceiveStep, ReceivedWhole, Answers, AckResult, AfterAck;
    ReceiveLaw(cfg, s, x.binding, x.pending, link, power, t, result, ack, i);
    AnswerAccepted(cfg, x, s.m.receipts[i].ackPower, ack);
  }

  class Sender {
    var binding: Binding
    var pending: Frame
    var counter: u64
    var attempts: nat
    var version: byte
    var power: i8
    var delivered: bool

    ghost function Now(): SenderState
      reads this
    {
      SenderState(binding, pending, counter, attempts, version, power, delivered)
    }

    constructor ()
      ensures Now() == IDLE_SENDER
    {
      binding, pending, counter, attempts := NO_BINDING, [], 0, 0;
      version, power, delivered := WIRE_V1, KEEP_POWER, false;
    }

    method Begin(store: PersistentStore, b: Binding, data: Data, wire: byte) returns (result: Result)
      requires store.Valid()
      modifies this, store, store.records
      ensures store.Valid()
      ensures BeginStep(store.cfg, old(store.Now()), old(Now()), b, data, wire, store.Now(), Now(), result)
      ensures store.records.faults == old(store.records.faults) ==>
        BegunWhole(store.cfg, old(store.Now()), old(Now()), b, data, wire, store.Now(), result)
    {
      hide SystemInv, Followed, Faultless, StoreBytes.View, Seal, SealFrame;
      if pending != [] && !delivered {
        return Conflict;
      }
      if !Codec.Usable(b) {
        return Unauthorized;
      }
      var valid := CheckData(data);
      if !valid || !KnownVersion(wire) {
        return Result.Invalid;
      }
      var ok, reserved := store.Reserve(b);
      if !ok {
        return StorageError;
      }
      DataSeals(store.cfg.c, b, data, wire, reserved);
      var sealing, next := RunSeal(store.cfg.c, b, DataMessage(data, wire, reserved));
      binding, pending, counter, version := b, next, reserved, wire;
      power, attempts, delivered := KEEP_POWER, 0, false;
      return Ok;
    }

    method Abandon()
      modifies this
      ensures Now() == Abandoned(old(Now()))
    {
      power, pending, counter, attempts, delivered := KEEP_POWER, [], 0, 0, false;
    }

    /** The frame to transmit, at most three times, always the same bytes. */
    method NextAttempt() returns (f: Option<Frame>)
      modifies this`attempts
      ensures Now() == if CanAttempt(old(Now())) then Attempted(old(Now())) else old(Now())
      ensures f == if CanAttempt(old(Now())) then Some(pending) else None
    {
      if pending == [] || delivered || attempts >= MAX_ATTEMPTS {
        return None;
      }
      attempts := attempts + 1;
      return Some(pending);
    }

    method Acknowledge(c: Crypto, f: Frame) returns (result: Result)
      requires pending != [] ==> TAG_SIZE <= |pending|
      modifies this
      ensures result == AckResult(c, old(Now()), f)
      ensures Now() == AfterAck(c, old(Now()), f)
    {
      hide Open;
      if pending == [] || attempts == 0 {
        return Result.Invalid;
      }
      var decoded, m := RunOpen(c, binding, f);
      if decoded != Ok {
        return decoded;
      }
      if !m.kind.AckKind? || m.counter != counter || m.version != version || m.dataTag != TagOf(pending) {
        return Result.Invalid;
      }
      delivered := true;
      power := m.powerDbm;
      return Ok;
    }
  }
}
