// The v1 snapshot (snapshot.cpp): one blob with every enrollment and queued frame, read only
// to migrate a device to separate records.
module Snapshot {
  import opened Wire
  import opened Protocol
  import opened Codec
  import opened Records

  const SNAPSHOT_MAGIC: seq<byte> := [67, 74, 83, 84]
  const SNAPSHOT_HEADER_SIZE := 42
  const MIN_SNAPSHOT_SIZE := SNAPSHOT_HEADER_SIZE + CRC_SIZE
  const OLD_ENTRY_SIZE := 186
  const OLD_QUEUED_SIZE := 138
  const SNAPSHOT_SIZE := MIN_SNAPSHOT_SIZE + BINDING_CAPACITY * OLD_ENTRY_SIZE + QUEUE_CAPACITY * OLD_QUEUED_SIZE

  /** `received` and `last` are the old receipt. */
  datatype OldEntry = OldEntry(
    state: Enrollment, node: u64, generation: u64, counter: u64, key: Key, received: u64, last: Frame)

  datatype OldQueued = OldQueued(entry: byte, frame: Frame)

  /** The occupied entries, which form a prefix of the slots, and the queue. */
  datatype Snap = Snap(
    revision: u64, network: u64, receiver: u64, profile: u16, entries: seq<OldEntry>, queue: seq<OldQueued>)

  /** A snapshot no device can hold: it has no entries. */
  const NO_SNAP := Snap(0, 0, 0, 0, [], [])

  // ------------------------------------------------------------------ validity

  /** The frame authenticates as DATA under the entry's key; its counter. */
  ghost function OldCounter(c: Crypto, e: OldEntry, network: u64, f: Frame): Option<u64>
  {
    match Open(c, Binding(network, e.node, e.key, true), f)
    case Done(m) => if m.kind.DataKind? then Some(m.counter) else None
    case Failed(_) => None
  }

  ghost predicate OldEntryFits(c: Crypto, role: Role, device: u64, network: u64, receiver: u64, e: OldEntry)
  {
    && !e.state.Empty?
    && e.node != 0 && e.generation != 0 && NonZero(e.key) && e.node != receiver
    && (role.Transmitter? ==> e.node == device && e.received == 0)
    && (role.Receiver? ==> e.counter == 0)
    && (e.state.Prepared? ==> e.counter == 0 && e.received == 0)
    && (if e.received != 0 then OldCounter(c, e, network, e.last) == Some(e.received) else e.last == [])
  }

  predicate OldApart(a: OldEntry, b: OldEntry)
  {
    && a.key != b.key && a.generation != b.generation
    && !(a.node == b.node && a.state.Active? && b.state.Active?)
  }

  ghost predicate OldQueuedFits(c: Crypto, network: u64, es: seq<OldEntry>, q: OldQueued)
  {
    && q.entry < |es|
    && (es[q.entry].state.Active? || es[q.entry].state.Revoked?)
    && (var n := OldCounter(c, es[q.entry], network, q.frame); n.Some? && n.value <= es[q.entry].received)
  }

  predicate OldIdentityFits(role: Role, device: u64, s: Snap, count: nat)
  {
    && s.revision != 0 && s.network != 0 && s.receiver != 0 && s.profile == 1
    && count <= QUEUE_CAPACITY
    && (role.Transmitter? ==> count == 0)
    && (role.Receiver? ==> s.receiver == device)
  }

  ghost predicate OldContentFits(c: Crypto, role: Role, device: u64, s: Snap)
  {
    && (forall i | 0 <= i < |s.entries| :: OldEntryFits(c, role, device, s.network, s.receiver, s.entries[i]))
    && (forall i, j | 0 <= j < i < |s.entries| :: OldApart(s.entries[j], s.entries[i]))
    && (forall i | 0 <= i < |s.queue| :: OldQueuedFits(c, s.network, s.entries, s.queue[i]))
  }

  /** What decode accepts. */
  ghost predicate SnapFits(c: Crypto, role: Role, device: u64, s: Snap)
  {
    && 1 <= |s.entries| <= BINDING_CAPACITY
    && OldIdentityFits(role, device, s, |s.queue|)
    && OldContentFits(c, role, device, s)
  }

  // ------------------------------------------------------------------ layout

  function Zeros(n: nat): (s: seq<byte>)
    ensures |s| == n
  {
    seq(n, i => 0)
  }

  /** A whole frame buffer: its size, the used bytes, then the unused ones. */
  function FrameBytes(f: Frame): (s: seq<byte>)
    requires |f| <= MAX_FRAME
    ensures |s| == 137
  {
    Be(|f|, 2) + f + Zeros(135 - |f|)
  }

  function OldEntryBytes(e: OldEntry): (s: seq<byte>)
    requires |e.last| <= MAX_FRAME
    ensures |s| == 186
  {
    [StateByte(e.state)] + Be(e.node, 8) + Be(e.generation, 8) + e.key + Be(e.counter, 8) + Be(e.received, 8)
    + FrameBytes(e.last)
  }

  function OldQueuedBytes(q: OldQueued): (s: seq<byte>)
    requires |q.frame| <= MAX_FRAME
    ensures |s| == 138
  {
    [q.entry] + FrameBytes(q.frame)
  }

  predicate FramesFit(s: Snap)
  {
    && (forall i | 0 <= i < |s.entries| :: |s.entries[i].last| <= MAX_FRAME)
    && (forall i | 0 <= i < |s.queue| :: |s.queue[i].frame| <= MAX_FRAME)
  }

  function OldEntriesBytes(s: Snap, n: nat): (b: seq<byte>)
    requires FramesFit(s) && n <= |s.entries|
    ensures |b| == 186 * n
  {
    if n == 0 then [] else OldEntriesBytes(s, n - 1) + OldEntryBytes(s.entries[n - 1])
  }

  function OldQueueBytes(s: Snap, n: nat): (b: seq<byte>)
    requires FramesFit(s) && n <= |s.queue|
    ensures |b| == 138 * n
  {
    if n == 0 then [] else OldQueueBytes(s, n - 1) + OldQueuedBytes(s.queue[n - 1])
  }

  function SnapHeader(role: Role, device: u64, s: Snap): (b: seq<byte>)
    requires |s.entries| <= BINDING_CAPACITY && |s.queue| <= QUEUE_CAPACITY
    ensures |b| == SNAPSHOT_HEADER_SIZE
  {
    SNAPSHOT_MAGIC + [1, RoleByte(role)] + Be(device, 8) + Be(s.revision, 8) + Be(s.network, 8)
    + Be(s.receiver, 8) + Be(s.profile, 2) + [|s.queue|, |s.entries|]
  }

  function EncodeSnapshot(c: Crypto, role: Role, device: u64, s: Snap): seq<byte>
    requires FramesFit(s) && |s.entries| <= BINDING_CAPACITY && |s.queue| <= QUEUE_CAPACITY
  {
    Records.Sealed(c, SnapHeader(role, device, s) + OldEntriesBytes(s, |s.entries|) + OldQueueBytes(s, |s.queue|))
  }

  // ------------------------------------------------------------------ decode

  /** None when the announced size exceeds the buffer. The unused bytes are not looked at. */
  function FrameIn(s: seq<byte>, at: nat): Option<Frame>
    requires at + 137 <= |s|
  {
    var size := Unbe(s[at..at + 2]);
    if size > MAX_FRAME then None else Some(s[at + 2..at + 2 + size])
  }

  function OldEntryAt(s: seq<byte>, at: nat): Option<OldEntry>
    requires at + 186 <= |s|
  {
    var frame := FrameIn(s, at + 49);
    if s[at] == 0 || s[at] > 3 || frame.None? then None
    else Some(OldEntry(StateOf(s[at]), U64At(s, at + 1), U64At(s, at + 9), U64At(s, at + 33),
                       s[at + 17..at + 33], U64At(s, at + 41), frame.value))
  }

  function OldEntriesAt(s: seq<byte>, n: nat): (r: Option<seq<OldEntry>>)
    requires 42 + 186 * n <= |s|
    ensures r.Some? ==> |r.value| == n
  {
    if n == 0 then Some([])
    else
      var before := OldEntriesAt(s, n - 1);
      var mine := OldEntryAt(s, 42 + 186 * (n - 1));
      if before.None? || mine.None? then None else Some(before.value + [mine.value])
  }

  function OldQueuedAt(s: seq<byte>, at: nat): Option<OldQueued>
    requires at + 138 <= |s|
  {
    var frame := FrameIn(s, at + 1);
    if frame.None? then None else Some(OldQueued(s[at], frame.value))
  }

  function OldQueueAt(s: seq<byte>, start: nat, n: nat): (r: Option<seq<OldQueued>>)
    requires start + 138 * n <= |s|
    ensures r.Some? ==> |r.value| == n
  {
    if n == 0 then Some([])
    else
      var before := OldQueueAt(s, start, n - 1);
      var mine := OldQueuedAt(s, start + 138 * (n - 1));
      if before.None? || mine.None? then None else Some(before.value + [mine.value])
  }

  function RawSnap(s: seq<byte>, es: seq<OldEntry>, q: seq<OldQueued>): Snap
    requires |s| >= SNAPSHOT_HEADER_SIZE
  {
    UnbeBound(s[38..40]); Widths();
    Snap(U64At(s, 14), U64At(s, 22), U64At(s, 30), Unbe(s[38..40]), es, q)
  }

  datatype SnapDecoded = SnapDecoded(health: Health, snap: Snap)

  ghost function DecodeSnapshot(c: Crypto, role: Role, device: u64, input: seq<byte>): SnapDecoded
  {
    if !Intact(c, input, MIN_SNAPSHOT_SIZE, SNAPSHOT_SIZE) then SnapDecoded(Corrupt, NO_SNAP)
    else if input[..4] != SNAPSHOT_MAGIC || input[4] != 1 then SnapDecoded(Format, NO_SNAP)
    else if input[5] != RoleByte(role) then SnapDecoded(WrongRole, NO_SNAP)
    else if U64At(input, 6) != device then SnapDecoded(WrongDevice, NO_SNAP)
    else
      var count: int, n: int := input[40], input[41];
      if || n == 0 || n > BINDING_CAPACITY || |input| != 46 + 186 * n + 138 * count
         || !OldIdentityFits(role, device, RawSnap(input, [], []), count)
      then SnapDecoded(Health.Invalid, NO_SNAP)
      else
        var es, q := OldEntriesAt(input, n), OldQueueAt(input, 42 + 186 * n, count);
        if es.None? || q.None? || !OldContentFits(c, role, device, RawSnap(input, es.value, q.value))
        then SnapDecoded(Health.Invalid, NO_SNAP)
        else SnapDecoded(Ready, RawSnap(input, es.value, q.value))
  }

  /** Whatever decodes satisfies the rules. */
  lemma DecodedSnapFits(c: Crypto, role: Role, device: u64, input: seq<byte>)
    requires DecodeSnapshot(c, role, device, input).health == Ready
    ensures SnapFits(c, role, device, DecodeSnapshot(c, role, device, input).snap)
  {
  }

  // ------------------------------------------------------------------ round trip

  lemma FitsFrames(c: Crypto, role: Role, device: u64, s: Snap)
    requires SnapFits(c, role, device, s)
    ensures FramesFit(s)
  {
    forall i | 0 <= i < |s.entries| ensures |s.entries[i].last| <= MAX_FRAME {
      assert OldEntryFits(c, role, device, s.network, s.receiver, s.entries[i]);
    }
    forall i | 0 <= i < |s.queue| ensures |s.queue[i].frame| <= MAX_FRAME {
      assert OldQueuedFits(c, s.network, s.entries, s.queue[i]);
    }
  }

  lemma FrameInEncoded(f: Frame, s: seq<byte>, at: nat)
    requires |f| <= MAX_FRAME && at + 137 <= |s| && s[at..at + 137] == FrameBytes(f)
    ensures FrameIn(s, at) == Some(f)
  {
    var size, rest := Be(|f|, 2), Zeros(135 - |f|);
    Inner(size + f, rest, 0, 2);
    Inner(size, f, 0, 2);
    assert size[0..2] == size;
    MiddleSlice(size, f, rest);
    SliceOfSlice(s, at, at + 137, 0, 2);
    SliceOfSlice(s, at, at + 137, 2, 2 + |f|);
    Widths();
    UnbeBe(|f|, 2);
  }

  lemma OldEntryParts(e: OldEntry)
    requires |e.last| <= MAX_FRAME
    ensures
      var b := OldEntryBytes(e);
      && b[0] == StateByte(e.state) && b[1..9] == Be(e.node, 8) && b[9..17] == Be(e.generation, 8)
      && b[17..33] == e.key && b[33..41] == Be(e.counter, 8) && b[41..49] == Be(e.received, 8)
      && b[49..186] == FrameBytes(e.last)
  {
  }

  lemma OldEntryRoundTrip(e: OldEntry, s: seq<byte>, at: nat)
    requires !e.state.Empty? && |e.last| <= MAX_FRAME && at + 186 <= |s|
    requires s[at..at + 186] == OldEntryBytes(e)
    ensures OldEntryAt(s, at) == Some(e)
  {
    OldEntryParts(e);
    assert s[at] == s[at..at + 186][0];
    SliceOfSlice(s, at, at + 186, 1, 9); SliceOfSlice(s, at, at + 186, 9, 17); SliceOfSlice(s, at, at + 186, 17, 33);
    SliceOfSlice(s, at, at + 186, 33, 41); SliceOfSlice(s, at, at + 186, 41, 49); SliceOfSlice(s, at, at + 186, 49,
        186);
    FrameInEncoded(e.last, s, at + 49);
    Widths();
    UnbeBe(e.node, 8); UnbeBe(e.generation, 8); UnbeBe(e.counter, 8); UnbeBe(e.received, 8);
  }

  lemma OldQueuedRoundTrip(q: OldQueued, s: seq<byte>, at: nat)
    requires |q.frame| <= MAX_FRAME && at + 138 <= |s|
    requires s[at..at + 138] == OldQueuedBytes(q)
    ensures OldQueuedAt(s, at) == Some(q)
  {
    assert s[at] == s[at..at + 138][0];
    assert OldQueuedBytes(q)[1..138] == FrameBytes(q.frame);
    SliceOfSlice(s, at, at + 138, 1, 138);
    FrameInEncoded(q.frame, s, at + 1);
  }

  /** The first `n` entry records, found wherever they lie. */
  lemma {:induction false} OldEntriesRoundTrip(x: Snap, s: seq<byte>, n: nat)
    requires FramesFit(x) && n <= |x.entries| && forall i | 0 <= i < n :: !x.entries[i].state.Empty?
    requires 42 + 186 * n <= |s| && s[42..42 + 186 * n] == OldEntriesBytes(x, n)
    ensures OldEntriesAt(s, n) == Some(x.entries[..n])
  {
    if n != 0 {
      hide OldEntryBytes, OldEntryAt, OldEntriesAt;
      var at, e := 42 + 186 * (n - 1), x.entries[n - 1];
      Split(s, 42, at, at + 186, OldEntriesBytes(x, n - 1), OldEntryBytes(e));
      OldEntriesRoundTrip(x, s, n - 1);
      OldEntryRoundTrip(e, s, at);
      OneMoreEntry(s, n, x.entries[..n - 1], e);
      assert x.entries[..n] == x.entries[..n - 1] + [e];
    }
  }

  lemma OneMoreEntry(s: seq<byte>, n: nat, before: seq<OldEntry>, e: OldEntry)
    requires 0 < n && 42 + 186 * n <= |s|
    requires OldEntriesAt(s, n - 1) == Some(before) && OldEntryAt(s, 42 + 186 * (n - 1)) == Some(e)
    ensures OldEntriesAt(s, n) == Some(before + [e])
  {
    hide OldEntryAt;
  }

  lemma {:induction false} OldQueueRoundTrip(x: Snap, s: seq<byte>, start: nat, n: nat)
    requires FramesFit(x) && n <= |x.queue|
    requires start + 138 * n <= |s| && s[start..start + 138 * n] == OldQueueBytes(x, n)
    ensures OldQueueAt(s, start, n) == Some(x.queue[..n])
  {
    if n != 0 {
      var at := start + 138 * (n - 1);
      hide OldQueuedBytes, OldQueuedAt;
      Split(s, start, at, at + 138, OldQueueBytes(x, n - 1), OldQueuedBytes(x.queue[n - 1]));
      OldQueueRoundTrip(x, s, start, n - 1);
      OldQueuedRoundTrip(x.queue[n - 1], s, at);
      assert x.queue[..n] == x.queue[..n - 1] + [x.queue[n - 1]];
    }
  }

  lemma SnapHeaderFields(role: Role, device: u64, x: Snap, rest: seq<byte>)
    requires |x.entries| <= BINDING_CAPACITY && |x.queue| <= QUEUE_CAPACITY
    ensures
      var s := SnapHeader(role, device, x) + rest;
      && s[..4] == SNAPSHOT_MAGIC && s[4] == 1 && s[5] == RoleByte(role) && U64At(s, 6) == device
      && s[40] == |x.queue| && s[41] == |x.entries|
      && (forall es, q :: RawSnap(s, es, q) == x.(entries := es, queue := q))
  {
    var h := SnapHeader(role, device, x);
    var s := h + rest;
    assert h[6..14] == Be(device, 8) && h[14..22] == Be(x.revision, 8) && h[22..30] == Be(x.network, 8);
    assert h[30..38] == Be(x.receiver, 8) && h[38..40] == Be(x.profile, 2);
    Inner(h, rest, 6, 14); Inner(h, rest, 14, 22); Inner(h, rest, 22, 30); Inner(h, rest, 30, 38); Inner(h, rest, 38,
        40);
    assert s[..4] == SNAPSHOT_MAGIC;
    Widths();
    UnbeBe(device, 8); UnbeBe(x.revision, 8); UnbeBe(x.network, 8); UnbeBe(x.receiver, 8); UnbeBe(x.profile, 2);
  }

  /** Where the parts of an encoded snapshot lie. */
  lemma SnapParts(c: Crypto, role: Role, device: u64, x: Snap)
    requires FramesFit(x) && |x.entries| <= BINDING_CAPACITY && |x.queue| <= QUEUE_CAPACITY
    ensures
      var s := EncodeSnapshot(c, role, device, x);
      var n, m := |x.entries|, |x.queue|;
      && |s| == 46 + 186 * n + 138 * m
      && s[42..42 + 186 * n] == OldEntriesBytes(x, n)
      && s[42 + 186 * n..42 + 186 * n + 138 * m] == OldQueueBytes(x, m)
      && s[..4] == SNAPSHOT_MAGIC && s[4] == 1 && s[5] == RoleByte(role) && U64At(s, 6) == device
      && s[40] == m && s[41] == n
      && (forall es, q :: RawSnap(s, es, q) == x.(entries := es, queue := q))
      && Intact(c, s, MIN_SNAPSHOT_SIZE, SNAPSHOT_SIZE)
  {
    var h, es, q := SnapHeader(role, device, x), OldEntriesBytes(x, |x.entries|), OldQueueBytes(x, |x.queue|);
    var crc := Be(c.crc32(h + es + q), CRC_SIZE);
    SealedIntact(c, h + es + q);
    MiddleSlice(h, es, q + crc);
    MiddleSlice(h + es, q, crc);
    Assoc(h + es, q, crc);
    Assoc(h, es, q + crc);
    SnapHeaderFields(role, device, x, es + (q + crc));
  }

  /** Decode accepts what has the right envelope, header and records. */
  lemma DecodeSnapshotAccepts(c: Crypto, role: Role, device: u64, s: seq<byte>, x: Snap)
    requires SnapFits(c, role, device, x) && Intact(c, s, MIN_SNAPSHOT_SIZE, SNAPSHOT_SIZE)
    requires |s| == 46 + 186 * |x.entries| + 138 * |x.queue|
    requires s[..4] == SNAPSHOT_MAGIC && s[4] == 1 && s[5] == RoleByte(role) && U64At(s, 6) == device
    requires s[40] == |x.queue| && s[41] == |x.entries|
    requires OldEntriesAt(s, |x.entries|) == Some(x.entries)
    requires OldQueueAt(s, 42 + 186 * |x.entries|, |x.queue|) == Some(x.queue)
    requires RawSnap(s, x.entries, x.queue) == x && RawSnap(s, [], []) == x.(entries := [], queue := [])
    ensures DecodeSnapshot(c, role, device, s) == SnapDecoded(Ready, x)
  {
    hide OldContentFits, Intact, OldEntriesAt, OldQueueAt, RawSnap, U64At;
  }

  lemma OccupiedEntries(c: Crypto, role: Role, device: u64, x: Snap)
    requires SnapFits(c, role, device, x)
    ensures forall i | 0 <= i < |x.entries| :: !x.entries[i].state.Empty?
  {
    forall i | 0 <= i < |x.entries| ensures !x.entries[i].state.Empty? {
      assert OldEntryFits(c, role, device, x.network, x.receiver, x.entries[i]);
    }
  }

  lemma RecordsRoundTrip(x: Snap, s: seq<byte>)
    requires FramesFit(x) && forall i | 0 <= i < |x.entries| :: !x.entries[i].state.Empty?
    requires |s| == 46 + 186 * |x.entries| + 138 * |x.queue|
    requires s[42..42 + 186 * |x.entries|] == OldEntriesBytes(x, |x.entries|)
    requires s[42 + 186 * |x.entries|..42 + 186 * |x.entries| + 138 * |x.queue|] == OldQueueBytes(x, |x.queue|)
    ensures OldEntriesAt(s, |x.entries|) == Some(x.entries)
    ensures OldQueueAt(s, 42 + 186 * |x.entries|, |x.queue|) == Some(x.queue)
  {
    hide OldEntriesAt, OldQueueAt, OldEntriesBytes, OldQueueBytes;
    OldEntriesRoundTrip(x, s, |x.entries|);
    OldQueueRoundTrip(x, s, 42 + 186 * |x.entries|, |x.queue|);
    assert x.entries[..|x.entries|] == x.entries && x.queue[..|x.queue|] == x.queue;
  }

  /** decode(encode(x)) is x. */
  lemma SnapshotRoundTrip(c: Crypto, role: Role, device: u64, x: Snap)
    requires SnapFits(c, role, device, x)
    ensures FramesFit(x)
    ensures DecodeSnapshot(c, role, device, EncodeSnapshot(c, role, device, x)) == SnapDecoded(Ready, x)
  {
    FitsFrames(c, role, device, x);
    OccupiedEntries(c, role, device, x);
    SnapParts(c, role, device, x);
    hide OldContentFits, EncodeSnapshot, DecodeSnapshot, OldEntriesAt, OldQueueAt, RawSnap, U64At, Intact;
    var s := EncodeSnapshot(c, role, device, x);
    RecordsRoundTrip(x, s);
    assert x.(entries := x.entries, queue := x.queue) == x;
    DecodeSnapshotAccepts(c, role, device, s, x);
  }

  // ------------------------------------------------------------------ the decoder's loops

  method OldCounterOf(c: Crypto, e: OldEntry, network: u64, f: Frame) returns (counter: Option<u64>)
    ensures counter == OldCounter(c, e, network, f)
  {
    hide Open;
    var result, m := RunOpen(c, Binding(network, e.node, e.key, true), f);
    return if result == Ok && m.kind.DataKind? then Some(m.counter) else None;
  }

  /** One entry: its fields, the entries before it, its receipt. */
  method CheckOldEntry(c: Crypto, role: Role, device: u64, s: Snap, i: nat) returns (ok: bool)
    requires i < |s.entries|
    ensures ok <==>
      && OldEntryFits(c, role, device, s.network, s.receiver, s.entries[i])
      && forall j | 0 <= j < i :: OldApart(s.entries[j], s.entries[i])
  {
    hide OldCounter;
    var e := s.entries[i];
    if || e.state.Empty? || e.node == 0 || e.generation == 0 || !NonZero(e.key) || e.node == s.receiver
       || (role.Transmitter? && e.node != device) || (role.Transmitter? && e.received != 0)
       || (role.Receiver? && e.counter != 0) {
      return false;
    }
    for j := 0 to i
      invariant forall k | 0 <= k < j :: OldApart(s.entries[k], e)
    {
      var prior := s.entries[j];
      if || prior.key == e.key || prior.generation == e.generation
         || (prior.node == e.node && prior.state.Active? && e.state.Active?) {
        return false;
      }
    }
    if e.state.Prepared? && (e.counter != 0 || e.received != 0) {
      return false;
    }
    if e.received == 0 {
      return e.last == [];
    }
    var counter := OldCounterOf(c, e, s.network, e.last);
    return counter == Some(e.received);
  }

  method CheckOldQueued(c: Crypto, s: Snap, q: OldQueued) returns (ok: bool)
    ensures ok <==> OldQueuedFits(c, s.network, s.entries, q)
  {
    hide OldCounter;
    if q.entry >= |s.entries| || s.entries[q.entry].state.Empty? || s.entries[q.entry].state.Prepared? {
      return false;
    }
    var counter := OldCounterOf(c, s.entries[q.entry], s.network, q.frame);
    return counter.Some? && counter.value <= s.entries[q.entry].received;
  }

  /** The cursor of snapshot.cpp; it does not check its bounds, so its callers do. */
  class SnapReader {
    const input: seq<byte>
    var at: nat

    constructor (bytes: seq<byte>)
      ensures input == bytes && at == 0
    {
      input, at := bytes, 0;
    }

    method Number(size: nat) returns (n: nat)
      requires at + size <= |input|
      modifies this
      ensures at == old(at) + size && n == Unbe(input[old(at)..at]) && n < Pow256(size)
    {
      n := 0;
      for i := 0 to size
        invariant at == old(at) + i && n == Unbe(input[old(at)..at])
      {
        assert input[old(at)..at + 1][..i] == input[old(at)..at];
        n := n * 256 + input[at];
        at := at + 1;
      }
      UnbeBound(input[old(at)..at]);
    }

    method Byte() returns (b: byte)
      requires at < |input|
      modifies this
      ensures at == old(at) + 1 && b == input[old(at)]
    {
      var n := Number(1);
      assert input[old(at)..at] == [input[old(at)]] && Pow256(1) == 256;
      b := n;
    }

    method Long() returns (n: u64)
      requires at + 8 <= |input|
      modifies this
      ensures at == old(at) + 8 && n == U64At(input, old(at))
    {
      Widths();
      var x := Number(8);
      n := x;
    }

    method Block(size: nat) returns (bytes: seq<byte>)
      requires at + size <= |input|
      modifies this
      ensures at == old(at) + size && bytes == input[old(at)..at]
    {
      bytes := input[at..at + size];
      at := at + size;
    }

    /** A whole frame buffer; too large a size refuses it once it was read. */
    method ReadFrame() returns (f: Option<Frame>)
      requires at + 137 <= |input|
      modifies this
      ensures at == old(at) + 137 && f == FrameIn(input, old(at))
    {
      var size := Number(2);
      var bytes := Block(MAX_FRAME);
      if size > MAX_FRAME {
        return None;
      }
      assert bytes[..size] == input[old(at) + 2..old(at) + 2 + size];
      return Some(bytes[..size]);
    }

    method ReadEntry() returns (e: Option<OldEntry>)
      requires at + OLD_ENTRY_SIZE <= |input|
      modifies this
      ensures at == old(at) + OLD_ENTRY_SIZE && e == OldEntryAt(input, old(at))
    {
      hide FrameIn, U64At;
      var state := Byte();
      var node := Long();
      var generation := Long();
      var key := Block(KEY_SIZE);
      var counter := Long();
      var received := Long();
      var last := ReadFrame();
      if state > 3 || state == 0 || last.None? {
        return None;
      }
      return Some(OldEntry(StateOf(state), node, generation, counter, key, received, last.value));
    }

    method ReadQueued() returns (q: Option<OldQueued>)
      requires at + OLD_QUEUED_SIZE <= |input|
      modifies this
      ensures at == old(at) + OLD_QUEUED_SIZE && q == OldQueuedAt(input, old(at))
    {
      hide FrameIn;
      var entry := Byte();
      var frame := ReadFrame();
      return if frame.None? then None else Some(OldQueued(entry, frame.value));
    }

    /** The header after the device number. */
    method ReadIdentity() returns (s: Snap, count: nat, n: nat)
      requires at == 14 && SNAPSHOT_HEADER_SIZE <= |input|
      modifies this
      ensures at == SNAPSHOT_HEADER_SIZE && s == RawSnap(input, [], []) && count == input[40] && n == input[41]
    {
      hide U64At;
      var revision := Long();
      var network := Long();
      var receiver := Long();
      Widths();
      var profile := Number(2);
      var frames := Byte();
      var occupied := Byte();
      count, n := frames, occupied;
      s := Snap(revision, network, receiver, profile, [], []);
    }
  }

  lemma Shorter<T>(a: seq<T>, x: T, i: nat)
    requires i <= |a|
    ensures (a + [x])[..i] == a[..i]
  {
  }

  /** What was read first is a prefix of all there is. */
  lemma {:induction false} EntriesPrefix(s: seq<byte>, i: nat, n: nat)
    requires i <= n && 42 + 186 * n <= |s|
    ensures OldEntriesAt(s, i).None? ==> OldEntriesAt(s, n).None?
    ensures OldEntriesAt(s, n).Some? ==> OldEntriesAt(s, i) == Some(OldEntriesAt(s, n).value[..i])
  {
    hide OldEntryAt;
    if i < n {
      EntriesPrefix(s, i, n - 1);
      if OldEntriesAt(s, n).Some? {
        Shorter(OldEntriesAt(s, n - 1).value, OldEntryAt(s, 42 + 186 * (n - 1)).value, i);
      }
    } else if OldEntriesAt(s, n).Some? {
      assert OldEntriesAt(s, n).value[..n] == OldEntriesAt(s, n).value;
    }
  }

  lemma {:induction false} QueuePrefix(s: seq<byte>, start: nat, i: nat, n: nat)
    requires i <= n && start + 138 * n <= |s|
    ensures OldQueueAt(s, start, i).None? ==> OldQueueAt(s, start, n).None?
    ensures OldQueueAt(s, start, n).Some? ==> OldQueueAt(s, start, i) == Some(OldQueueAt(s, start, n).value[..i])
  {
    hide OldQueuedAt;
    if i < n {
      QueuePrefix(s, start, i, n - 1);
      if OldQueueAt(s, start, n).Some? {
        Shorter(OldQueueAt(s, start, n - 1).value, OldQueuedAt(s, start + 138 * (n - 1)).value, i);
      }
    } else if OldQueueAt(s, start, n).Some? {
      assert OldQueueAt(s, start, n).value[..n] == OldQueueAt(s, start, n).value;
    }
  }

  ghost predicate EntriesFit(c: Crypto, role: Role, device: u64, s: Snap, n: nat)
    requires n <= |s.entries|
  {
    && (forall i | 0 <= i < n :: OldEntryFits(c, role, device, s.network, s.receiver, s.entries[i]))
    && (forall i, j | 0 <= j < i < n :: OldApart(s.entries[j], s.entries[i]))
  }

  /** Every entry record, each checked against those before it as it is read. */
  method ReadEntries(r: SnapReader, c: Crypto, role: Role, device: u64, header: Snap, n: nat) returns (s: Option<Snap>)
    requires r.at == SNAPSHOT_HEADER_SIZE && 42 + 186 * n <= |r.input| && header.entries == []
    modifies r
    ensures
      var es := OldEntriesAt(r.input, n);
      if es.Some? && EntriesFit(c, role, device, header.(entries := es.value), n)
        then s == Some(header.(entries := es.value))
      else s == None
    ensures s.Some? ==> r.at == 42 + 186 * n
  {
    hide OldEntryAt, OldEntryFits, OldApart;
    var all := header;
    for i := 0 to n
      invariant r.at == 42 + 186 * i && all == header.(entries := all.entries)
      invariant OldEntriesAt(r.input, i) == Some(all.entries) && |all.entries| == i
      invariant EntriesFit(c, role, device, all, i)
    {
      var e := r.ReadEntry();
      EntriesPrefix(r.input, i + 1, n);
      if e.None? {
        return None;
      }
      ghost var before := all;
      all := all.(entries := all.entries + [e.value]);
      var fits := CheckOldEntry(c, role, device, all, i);
      if !fits {
        BadEntry(c, role, device, header, all.entries, i, OldEntriesAt(r.input, n));
        return None;
      }
      assert forall k | 0 <= k < i :: all.entries[k] == before.entries[k];
    }
    return Some(all);
  }

  lemma BadEntry(c: Crypto, role: Role, device: u64, header: Snap, part: seq<OldEntry>, i: nat,
                 all: Option<seq<OldEntry>>)
    requires |part| == i + 1 && (all.Some? ==> i < |all.value| && all.value[..i + 1] == part)
    requires !(&& OldEntryFits(c, role, device, header.network, header.receiver, part[i])
               && forall j | 0 <= j < i :: OldApart(part[j], part[i]))
    ensures all.Some? ==> !EntriesFit(c, role, device, header.(entries := all.value), |all.value|)
  {
    hide OldEntryFits, OldApart;
    if all.Some? {
      assert forall k | 0 <= k <= i :: all.value[k] == part[k];
    }
  }

  /** Every queued frame, checked as it is read. */
  method ReadQueue(r: SnapReader, c: Crypto, s: Snap, n: nat) returns (q: Option<seq<OldQueued>>)
    requires r.at + 138 * n <= |r.input|
    modifies r
    ensures
      var all := OldQueueAt(r.input, old(r.at), n);
      if all.Some? && forall i | 0 <= i < n :: OldQueuedFits(c, s.network, s.entries, all.value[i]) then q == all
      else q == None
  {
    hide OldQueuedAt, OldQueuedFits;
    var part := [];
    ghost var start := r.at;
    for i := 0 to n
      invariant r.at == start + 138 * i && |part| == i && OldQueueAt(r.input, start, i) == Some(part)
      invariant forall k | 0 <= k < i :: OldQueuedFits(c, s.network, s.entries, part[k])
    {
      var x := r.ReadQueued();
      QueuePrefix(r.input, start, i + 1, n);
      if x.None? {
        return None;
      }
      part := part + [x.value];
      var fits := CheckOldQueued(c, s, x.value);
      if !fits {
        assert OldQueueAt(r.input, start, n).Some? ==> OldQueueAt(r.input, start, n).value[..i + 1][i] == x.value;
        return None;
      }
    }
    return Some(part);
  }

  /** `decode`: envelope, identity, sizes, then every entry and queued frame. */
  method RunDecodeSnapshot(c: Crypto, role: Role, device: u64, input: seq<byte>) returns (d: SnapDecoded)
    ensures d == DecodeSnapshot(c, role, device, input)
  {
    hide OldEntryFits, OldQueuedFits, OldApart, U64At, OldEntriesAt, OldQueueAt;
    if !Intact(c, input, MIN_SNAPSHOT_SIZE, SNAPSHOT_SIZE) {
      return SnapDecoded(Corrupt, NO_SNAP);
    }
    var r := new SnapReader(input);
    var magic := r.Block(4);
    var version := r.Byte();
    if magic != SNAPSHOT_MAGIC || version != 1 {
      return SnapDecoded(Format, NO_SNAP);
    }
    var written := r.Byte();
    if written != RoleByte(role) {
      return SnapDecoded(WrongRole, NO_SNAP);
    }
    var owner := r.Long();
    if owner != device {
      return SnapDecoded(WrongDevice, NO_SNAP);
    }
    var header, count, n := r.ReadIdentity();
    if || n == 0 || n > BINDING_CAPACITY || |input| != 46 + 186 * n + 138 * count
       || !OldIdentityFits(role, device, header, count) {
      return SnapDecoded(Health.Invalid, NO_SNAP);
    }
    var s := ReadEntries(r, c, role, device, header, n);
    if s.None? {
      return SnapDecoded(Health.Invalid, NO_SNAP);
    }
    var queue := ReadQueue(r, c, s.value, count);
    return if queue.Some? then SnapDecoded(Ready, s.value.(queue := queue.value))
      else SnapDecoded(Health.Invalid, NO_SNAP);
  }
}
