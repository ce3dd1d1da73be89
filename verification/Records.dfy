// Record layout v2 (records.h, records.cpp): what each record holds and its one encoding.
module Records {
  import opened Wire
  import opened Protocol

  const BINDING_CAPACITY := 16
  const QUEUE_CAPACITY := 128
  const RETIRED_CAPACITY := 64
  const CRC_SIZE := 4
  const REGISTRY_HEADER_SIZE := 38
  const REGISTRY_ENTRY_SIZE := 42
  const REGISTRY_CAPACITY := REGISTRY_HEADER_SIZE + BINDING_CAPACITY * REGISTRY_ENTRY_SIZE + CRC_SIZE
  const MIN_RECEIPT := 32
  const RECEIPT_CAPACITY := 28 + MAX_FRAME + 1 + CRC_SIZE
  const MIN_QUEUE_RECORD := 25
  const QUEUE_RECORD_CAPACITY := 21 + MAX_FRAME + 5 + CRC_SIZE
  const HEAD_SIZE := 14
  const RETIRED_RECORD_CAPACITY := 3 + RETIRED_CAPACITY * 16 + CRC_SIZE

  const REGISTRY_KIND: byte := 71
  const RETIRED_KIND: byte := 88
  const RECEIPT_KIND: byte := 82
  const QUEUE_KIND: byte := 81
  const HEAD_KIND: byte := 72

  datatype Role = Transmitter | Receiver

  datatype Enrollment = Empty | Prepared | Active | Revoked

  datatype Health =
    | Unmounted | Ready | Identity | ReadError | Corrupt | Format
    | WrongRole | WrongDevice | Invalid | WriteError

  datatype Entry = Entry(state: Enrollment, node: u64, generation: u64, counter: u64, key: Key)

  const NO_ENTRY := Entry(Empty, 0, 0, 0, ZERO16)

  function NoEntries(): (es: seq<Entry>)
    ensures |es| == BINDING_CAPACITY
    ensures forall i :: 0 <= i < BINDING_CAPACITY ==> es[i] == NO_ENTRY
  {
    seq(BINDING_CAPACITY, i => NO_ENTRY)
  }

  type Entries = e: seq<Entry> | |e| == BINDING_CAPACITY witness NoEntries()

  datatype Registry = Registry(revision: u64, network: u64, receiver: u64, profile: u16, entries: Entries)

  const NO_REGISTRY := Registry(0, 0, 0, 0, NoEntries())

  datatype Retired = Retired(generation: u64, fingerprint: u64)

  type RetiredList = l: seq<Retired> | |l| <= RETIRED_CAPACITY

  /** Replay state of one slot; `through` is one past the queue position its last sample filled. */
  datatype ReceiptRecord = ReceiptRecord(
    generation: u64, through: nat, counter: u64, last: Frame, ackPower: i8)

  const NO_RECEIPT_RECORD := ReceiptRecord(0, 0, 0, [], KEEP_POWER)

  datatype QueueRecord = QueueRecord(sequence: nat, generation: u64, slot: byte, frame: Frame, link: Link)

  function RoleByte(role: Role): byte { if role.Transmitter? then 1 else 2 }

  function StateByte(s: Enrollment): byte
  {
    match s case Empty => 0 case Prepared => 1 case Active => 2 case Revoked => 3
  }

  function StateOf(b: byte): Enrollment
    requires 1 <= b <= 3
  {
    if b == 1 then Prepared else if b == 2 then Active else Revoked
  }

  predicate NonZero(k: Key) { k != ZERO16 }

  // ------------------------------------------------------------------ the envelope

  function Sealed(c: Crypto, body: seq<byte>): seq<byte> { body + Be(c.crc32(body), CRC_SIZE) }

  /** Size bounds and trailing CRC. */
  predicate Intact(c: Crypto, input: seq<byte>, minimum: nat, maximum: nat)
    requires minimum >= CRC_SIZE
  {
    && minimum <= |input| <= maximum
    && Unbe(input[|input| - CRC_SIZE..]) == c.crc32(input[..|input| - CRC_SIZE])
  }

  lemma SealedIntact(c: Crypto, body: seq<byte>)
    ensures
      var s := Sealed(c, body);
      && |s| == |body| + CRC_SIZE && s[..|s| - CRC_SIZE] == body
      && Unbe(s[|s| - CRC_SIZE..]) == c.crc32(body)
  {
    var s := Sealed(c, body);
    assert s[|s| - CRC_SIZE..] == Be(c.crc32(body), CRC_SIZE);
    Widths();
    UnbeBe(c.crc32(body), CRC_SIZE);
  }

  lemma IntactSealed(c: Crypto, input: seq<byte>, minimum: nat, maximum: nat)
    requires minimum >= CRC_SIZE && Intact(c, input, minimum, maximum)
    ensures input == Sealed(c, input[..|input| - CRC_SIZE])
  {
    BeUnbe(input[|input| - CRC_SIZE..]);
  }

  // ------------------------------------------------------------------ registry

  function EntryBytes(slot: byte, e: Entry): (s: seq<byte>)
    ensures |s| == REGISTRY_ENTRY_SIZE
  {
    [slot, StateByte(e.state)] + Be(e.node, 8) + Be(e.generation, 8) + e.key + Be(e.counter, 8)
  }

  /** Occupied slots among the first `n`. */
  function Occupied(es: Entries, n: nat): (k: nat)
    requires n <= BINDING_CAPACITY
    ensures k <= n
  {
    if n == 0 then 0 else Occupied(es, n - 1) + if es[n - 1].state.Empty? then 0 else 1
  }

  /** The records of the occupied slots among the first `n`, in slot order. */
  function EntriesBytes(es: Entries, n: nat): (s: seq<byte>)
    requires n <= BINDING_CAPACITY
    ensures |s| == 42 * Occupied(es, n)
  {
    if n == 0 then []
    else EntriesBytes(es, n - 1) + if es[n - 1].state.Empty? then [] else EntryBytes(n - 1, es[n - 1])
  }

  function RegistryHeader(role: Role, device: u64, r: Registry): (s: seq<byte>)
    ensures |s| == REGISTRY_HEADER_SIZE
  {
    [REGISTRY_KIND, 1, RoleByte(role)] + Be(device, 8) + Be(r.revision, 8) + Be(r.network, 8)
    + Be(r.receiver, 8) + Be(r.profile, 2) + [Occupied(r.entries, BINDING_CAPACITY)]
  }

  function EncodeRegistry(c: Crypto, role: Role, device: u64, r: Registry): seq<byte>
  {
    Sealed(c, RegistryHeader(role, device, r) + EntriesBytes(r.entries, BINDING_CAPACITY))
  }

  function U64At(s: seq<byte>, at: nat): u64
    requires at + 8 <= |s|
  {
    UnbeBound(s[at..at + 8]); Widths();
    Unbe(s[at..at + 8])
  }

  predicate Joined(r: Registry) { r.network != 0 || r.receiver != 0 || r.profile != 0 }

  /** The identity part: an empty registry is a device that left its network. */
  predicate IdentityFits(role: Role, device: u64, r: Registry, occupied: nat)
  {
    && r.revision != 0
    && (occupied != 0 ==> Joined(r))
    && (Joined(r) ==> r.network != 0 && r.receiver != 0 && r.profile == 1)
    && (role.Receiver? && Joined(r) ==> r.receiver == device)
  }

  predicate EntryFits(role: Role, device: u64, receiver: u64, e: Entry)
  {
    && !e.state.Empty?
    && e.node != 0 && e.generation != 0 && NonZero(e.key) && e.node != receiver
    && (role.Transmitter? ==> e.node == device)
    && (role.Receiver? ==> e.counter == 0)
    && (e.state.Prepared? ==> e.counter == 0)
  }

  /** What decode accepts: field rules of one registry, before the cross-record rules. */
  ghost predicate RegistryFits(role: Role, device: u64, r: Registry)
  {
    && IdentityFits(role, device, r, Occupied(r.entries, BINDING_CAPACITY))
    && AllFit(role, device, r.receiver, r.entries)
  }

  function RawEntryAt(s: seq<byte>, at: nat): Entry
    requires at + REGISTRY_ENTRY_SIZE <= |s| && 1 <= s[at + 1] <= 3
  {
    Entry(StateOf(s[at + 1]), U64At(s, at + 2), U64At(s, at + 10), U64At(s, at + 34), s[at + 18..at + 34])
  }

  datatype Parsed = Parsed(entries: Entries, previous: int)

  function EntryOffset(i: nat): nat { 38 + 42 * i }

  function ParseStep(role: Role, device: u64, receiver: u64, s: seq<byte>, at: nat, p: Parsed): Option<Parsed>
    requires at + REGISTRY_ENTRY_SIZE <= |s|
  {
    var slot := s[at];
    if slot <= p.previous || slot >= BINDING_CAPACITY || s[at + 1] == 0 || s[at + 1] > 3 then None
    else
      var e := RawEntryAt(s, at);
      if EntryFits(role, device, receiver, e) then Some(Parsed(p.entries[slot := e], slot)) else None
  }

  /** The first `n` entry records: strictly increasing slots, each with valid fields. */
  function ParseEntries(role: Role, device: u64, receiver: u64, s: seq<byte>, n: nat): Option<Parsed>
    requires EntryOffset(n) <= |s|
  {
    if n == 0 then Some(Parsed(NoEntries(), -1))
    else
      match ParseEntries(role, device, receiver, s, n - 1)
      case None => None
      case Some(p) => ParseStep(role, device, receiver, s, EntryOffset(n - 1), p)
  }

  datatype Decoded = Decoded(health: Health, registry: Registry)

  function DecodeRegistry(c: Crypto, role: Role, device: u64, input: seq<byte>): Decoded
  {
    if !Intact(c, input, REGISTRY_HEADER_SIZE + CRC_SIZE, REGISTRY_CAPACITY) then Decoded(Corrupt, NO_REGISTRY)
    else if input[0] != REGISTRY_KIND || input[1] != 1 then Decoded(Format, NO_REGISTRY)
    else if input[2] != RoleByte(role) then Decoded(WrongRole, NO_REGISTRY)
    else if U64At(input, 3) != device then Decoded(WrongDevice, NO_REGISTRY)
    else
      var count: int := input[37];
      var r := RawRegistry(input, NoEntries());
      if || count > BINDING_CAPACITY || |input| != EntryOffset(count) + CRC_SIZE
         || !IdentityFits(role, device, r, count)
      then Decoded(Health.Invalid, NO_REGISTRY)
      else match ParseEntries(role, device, r.receiver, input, count)
        case None => Decoded(Health.Invalid, NO_REGISTRY)
        case Some(p) => Decoded(Ready, RawRegistry(input, p.entries))
  }

  function RawRegistry(input: seq<byte>, es: Entries): Registry
    requires |input| >= REGISTRY_HEADER_SIZE
  {
    UnbeBound(input[35..37]); Widths();
    Registry(U64At(input, 11), U64At(input, 19), U64At(input, 27), Unbe(input[35..37]), es)
  }

  // Entry lemmas

  lemma EntryRoundTrip(slot: byte, e: Entry, s: seq<byte>, at: nat)
    requires !e.state.Empty? && at + REGISTRY_ENTRY_SIZE <= |s|
    requires s[at..at + REGISTRY_ENTRY_SIZE] == EntryBytes(slot, e)
    ensures s[at] == slot && 1 <= s[at + 1] <= 3 && RawEntryAt(s, at) == e
  {
    var w := EntryBytes(slot, e);
    assert s[at] == w[0] && s[at + 1] == w[1];
    SliceOfSlice(s, at, at + 42, 2, 10); SliceOfSlice(s, at, at + 42, 10, 18);
    SliceOfSlice(s, at, at + 42, 18, 34); SliceOfSlice(s, at, at + 42, 34, 42);
    assert w[2..10] == Be(e.node, 8) && w[10..18] == Be(e.generation, 8);
    assert w[18..34] == e.key && w[34..42] == Be(e.counter, 8);
    Widths();
    UnbeBe(e.node, 8); UnbeBe(e.generation, 8); UnbeBe(e.counter, 8);
  }

  lemma EntryRebuilt(s: seq<byte>, at: nat)
    requires at + REGISTRY_ENTRY_SIZE <= |s| && 1 <= s[at + 1] <= 3
    ensures EntryBytes(s[at], RawEntryAt(s, at)) == s[at..at + REGISTRY_ENTRY_SIZE]
  {
    BeUnbe(s[at + 2..at + 10]); BeUnbe(s[at + 10..at + 18]); BeUnbe(s[at + 34..at + 42]);
    assert [s[at], s[at + 1]] == s[at..at + 2];
    Join(s, at, at + 2, at + 10); Join(s, at, at + 10, at + 18);
    Join(s, at, at + 18, at + 34); Join(s, at, at + 34, at + 42);
  }

  /** The records of the first `m` slots start those of the first `n`. */
  lemma {:induction false} EntriesSplit(es: Entries, m: nat, n: nat) returns (tail: seq<byte>)
    requires m <= n <= BINDING_CAPACITY
    ensures Occupied(es, m) <= Occupied(es, n)
    ensures EntriesBytes(es, n) == EntriesBytes(es, m) + tail
  {
    if m == n {
      tail := [];
    } else {
      var t := EntriesSplit(es, m, n - 1);
      var last := if es[n - 1].state.Empty? then [] else EntryBytes(n - 1, es[n - 1]);
      tail := t + last;
      Assoc(EntriesBytes(es, m), t, last);
    }
  }

  lemma {:induction false} EmptyTail(es: Entries, m: nat, n: nat)
    requires m <= n <= BINDING_CAPACITY
    requires forall i :: m <= i < n ==> es[i].state.Empty?
    ensures Occupied(es, n) == Occupied(es, m) && EntriesBytes(es, n) == EntriesBytes(es, m)
  {
    if m < n {
      EmptyTail(es, m, n - 1);
    }
  }

  lemma {:induction false} SameFirst(a: Entries, b: Entries, n: nat)
    requires n <= BINDING_CAPACITY
    requires forall i :: 0 <= i < n ==> a[i] == b[i]
    ensures Occupied(a, n) == Occupied(b, n) && EntriesBytes(a, n) == EntriesBytes(b, n)
  {
    if n != 0 {
      SameFirst(a, b, n - 1);
    }
  }

  lemma InTheMiddle<T>(pre: seq<T>, first: seq<T>, mine: seq<T>, tail: seq<T>, post: seq<T>)
    ensures
      var s, at := pre + (first + mine + tail) + post, |pre| + |first|;
      at + |mine| <= |s| && s[at..at + |mine|] == mine
  {
    assert pre + (first + mine + tail) + post == (pre + first) + mine + (tail + post);
    MiddleSlice(pre + first, mine, tail + post);
  }

  /** The record of an occupied slot follows those of the occupied slots before it. */
  lemma EntryRecordAt(es: Entries, m: nat, pre: seq<byte>, post: seq<byte>)
    requires m < BINDING_CAPACITY && !es[m].state.Empty? && |pre| == REGISTRY_HEADER_SIZE
    ensures
      var s, at := pre + EntriesBytes(es, BINDING_CAPACITY) + post, EntryOffset(Occupied(es, m));
      at + REGISTRY_ENTRY_SIZE <= |s| && s[at..at + REGISTRY_ENTRY_SIZE] == EntryBytes(m, es[m])
  {
    var tail := EntriesSplit(es, m + 1, BINDING_CAPACITY);
    var first, mine := EntriesBytes(es, m), EntryBytes(m, es[m]);
    assert EntriesBytes(es, m + 1) == first + mine;
    InTheMiddle(pre, first, mine, tail, post);
  }

  ghost predicate AllFit(role: Role, device: u64, receiver: u64, es: Entries)
  {
    forall i :: 0 <= i < BINDING_CAPACITY ==> es[i] == NO_ENTRY || EntryFits(role, device, receiver, es[i])
  }

  ghost predicate ParsedFirst(p: Option<Parsed>, es: Entries, n: nat)
  {
    && p.Some? && p.value.previous < n
    && (forall i :: 0 <= i < BINDING_CAPACITY ==> p.value.entries[i] == if i < n then es[i] else NO_ENTRY)
  }

  lemma StepEncoded(role: Role, device: u64, receiver: u64, es: Entries, s: seq<byte>, at: nat, p: Parsed, m: nat)
    requires m < BINDING_CAPACITY && ParsedFirst(Some(p), es, m) && EntryFits(role, device, receiver, es[m])
    requires at + REGISTRY_ENTRY_SIZE <= |s| && s[at..at + REGISTRY_ENTRY_SIZE] == EntryBytes(m, es[m])
    ensures ParsedFirst(ParseStep(role, device, receiver, s, at, p), es, m + 1)
  {
    EntryRoundTrip(m, es[m], s, at);
  }

  lemma StepEmpty(p: Option<Parsed>, es: Entries, m: nat)
    requires m < BINDING_CAPACITY && ParsedFirst(p, es, m) && es[m] == NO_ENTRY
    ensures ParsedFirst(p, es, m + 1)
  {
  }

  lemma ParseNone(role: Role, device: u64, receiver: u64, es: Entries, s: seq<byte>)
    requires |s| >= REGISTRY_HEADER_SIZE
    ensures ParsedFirst(ParseEntries(role, device, receiver, s, Occupied(es, 0)), es, 0)
  {
  }

  lemma ParseOneMore(role: Role, device: u64, receiver: u64, es: Entries, s: seq<byte>, m: nat)
    requires m < BINDING_CAPACITY && EntryFits(role, device, receiver, es[m])
    requires EntryOffset(Occupied(es, m)) + REGISTRY_ENTRY_SIZE <= |s|
    requires ParsedFirst(ParseEntries(role, device, receiver, s, Occupied(es, m)), es, m)
    requires
      var at := EntryOffset(Occupied(es, m));
      s[at..at + REGISTRY_ENTRY_SIZE] == EntryBytes(m, es[m])
    ensures ParsedFirst(ParseEntries(role, device, receiver, s, Occupied(es, m + 1)), es, m + 1)
  {
    var k := Occupied(es, m);
    var before := ParseEntries(role, device, receiver, s, k);
    StepEncoded(role, device, receiver, es, s, EntryOffset(k), before.value, m);
    assert Occupied(es, m + 1) == k + 1;
    assert ParseEntries(role, device, receiver, s, k + 1)
        == ParseStep(role, device, receiver, s, EntryOffset(k), before.value);
  }

  ghost predicate RecordAt(es: Entries, m: nat, s: seq<byte>)
    requires m < BINDING_CAPACITY
  {
    var at := EntryOffset(Occupied(es, m));
    at + REGISTRY_ENTRY_SIZE <= |s| && s[at..at + REGISTRY_ENTRY_SIZE] == EntryBytes(m, es[m])
  }

  /** Parsing stops nowhere short: after the records of the first `n` slots it holds those slots. */
  lemma {:induction false} ParseEncoded(role: Role, device: u64, receiver: u64, es: Entries, s: seq<byte>, n: nat)
    requires n <= BINDING_CAPACITY && AllFit(role, device, receiver, es) && |s| >= REGISTRY_HEADER_SIZE
    requires forall m :: 0 <= m < BINDING_CAPACITY && !es[m].state.Empty? ==> RecordAt(es, m, s)
    ensures EntryOffset(Occupied(es, n)) <= |s|
    ensures ParsedFirst(ParseEntries(role, device, receiver, s, Occupied(es, n)), es, n)
  {
    if n == 0 {
      ParseNone(role, device, receiver, es, s);
    } else {
      var m := n - 1;
      ParseEncoded(role, device, receiver, es, s, m);
      if es[m].state.Empty? {
        assert es[m] == NO_ENTRY && Occupied(es, n) == Occupied(es, m);
        StepEmpty(ParseEntries(role, device, receiver, s, Occupied(es, n)), es, m);
      } else {
        assert RecordAt(es, m, s);
        ParseOneMore(role, device, receiver, es, s, m);
      }
    }
  }

  /** Adding an entry after the last occupied slot appends its record. */
  lemma EntryAppended(es: Entries, slot: byte, e: Entry)
    requires slot < BINDING_CAPACITY && !e.state.Empty?
    requires forall i :: slot <= i < BINDING_CAPACITY ==> es[i].state.Empty?
    ensures Occupied(es[slot := e], BINDING_CAPACITY) == Occupied(es, BINDING_CAPACITY) + 1
    ensures EntriesBytes(es[slot := e], BINDING_CAPACITY) == EntriesBytes(es, BINDING_CAPACITY) + EntryBytes(slot, e)
  {
    var q := es[slot := e];
    EmptyTail(es, slot, BINDING_CAPACITY);
    EmptyTail(q, slot + 1, BINDING_CAPACITY);
    SameFirst(q, es, slot);
  }

  ghost predicate ParsedExactly(role: Role, device: u64, receiver: u64, s: seq<byte>, p: Parsed, n: nat)
    requires EntryOffset(n) <= |s|
  {
    && -1 <= p.previous < BINDING_CAPACITY
    && Occupied(p.entries, BINDING_CAPACITY) == n
    && EntriesBytes(p.entries, BINDING_CAPACITY) == s[REGISTRY_HEADER_SIZE..EntryOffset(n)]
    && (forall i :: p.previous < i < BINDING_CAPACITY ==> p.entries[i] == NO_ENTRY)
    && AllFit(role, device, receiver, p.entries)
  }

  lemma EncodeNext(role: Role, device: u64, receiver: u64, s: seq<byte>, p: Parsed, n: nat)
    requires EntryOffset(n + 1) <= |s| && ParsedExactly(role, device, receiver, s, p, n)
    requires ParseStep(role, device, receiver, s, EntryOffset(n), p).Some?
    ensures ParsedExactly(role, device, receiver, s, ParseStep(role, device, receiver, s, EntryOffset(n), p).value,
                          n + 1)
  {
    var at := EntryOffset(n);
    EntryRebuilt(s, at);
    EntryAppended(p.entries, s[at], RawEntryAt(s, at));
    Join(s, REGISTRY_HEADER_SIZE, at, at + REGISTRY_ENTRY_SIZE);
  }

  lemma EncodeNone(role: Role, device: u64, receiver: u64, s: seq<byte>)
    requires EntryOffset(0) <= |s|
    ensures ParsedExactly(role, device, receiver, s, ParseEntries(role, device, receiver, s, 0).value, 0)
  {
    EmptyTail(NoEntries(), 0, BINDING_CAPACITY);
  }

  /** Records that parse are the encoding of the entries they hold. */
  lemma {:induction false} EncodeParsed(role: Role, device: u64, receiver: u64, s: seq<byte>, n: nat)
    requires EntryOffset(n) <= |s| && ParseEntries(role, device, receiver, s, n).Some?
    ensures ParsedExactly(role, device, receiver, s, ParseEntries(role, device, receiver, s, n).value, n)
  {
    hide ParsedExactly, ParseStep;
    if n == 0 {
      EncodeNone(role, device, receiver, s);
    } else {
      EncodeParsed(role, device, receiver, s, n - 1);
      EncodeNext(role, device, receiver, s, ParseEntries(role, device, receiver, s, n - 1).value, n - 1);
    }
  }

  lemma RegistryNumbers(role: Role, device: u64, r: Registry)
    ensures
      var h := RegistryHeader(role, device, r);
      && h[0] == REGISTRY_KIND && h[1] == 1 && h[2] == RoleByte(role) && h[37] == Occupied(r.entries, BINDING_CAPACITY)
      && Unbe(h[3..11]) == device && Unbe(h[11..19]) == r.revision && Unbe(h[19..27]) == r.network
      && Unbe(h[27..35]) == r.receiver && Unbe(h[35..37]) == r.profile
  {
    var h := RegistryHeader(role, device, r);
    Widths();
    var a: seq<byte> := [REGISTRY_KIND, 1, RoleByte(role)];
    var b := a + Be(device, 8);
    var c := b + Be(r.revision, 8);
    var d := c + Be(r.network, 8);
    var e := d + Be(r.receiver, 8);
    var f := e + Be(r.profile, 2);
    var z := [Occupied(r.entries, BINDING_CAPACITY)];
    assert h == f + z;
    FieldAt(a, device, 8, []); FieldAt(b, r.revision, 8, []); FieldAt(c, r.network, 8, []);
    FieldAt(d, r.receiver, 8, []); FieldAt(e, r.profile, 2, []);
    assert a + Be(device, 8) + [] == b && b + Be(r.revision, 8) + [] == c && c + Be(r.network, 8) + [] == d;
    assert d + Be(r.receiver, 8) + [] == e && e + Be(r.profile, 2) + [] == f;
    Inner(b, Be(r.revision, 8), 3, 11); Inner(c, Be(r.network, 8), 3, 11); Inner(d, Be(r.receiver, 8), 3, 11);
    Inner(c, Be(r.network, 8), 11, 19); Inner(d, Be(r.receiver, 8), 11, 19); Inner(d, Be(r.receiver, 8), 19, 27);
    Inner(e, Be(r.profile, 2), 3, 11); Inner(e, Be(r.profile, 2), 11, 19); Inner(e, Be(r.profile, 2), 19, 27);
    Inner(e, Be(r.profile, 2), 27, 35);
    Inner(f, z, 3, 11); Inner(f, z, 11, 19); Inner(f, z, 19, 27); Inner(f, z, 27, 35); Inner(f, z, 35, 37);
  }

  lemma RegistryFields(role: Role, device: u64, r: Registry, rest: seq<byte>)
    ensures
      var s := RegistryHeader(role, device, r) + rest;
      && s[0] == REGISTRY_KIND && s[1] == 1 && s[2] == RoleByte(role) && U64At(s, 3) == device
      && s[37] == Occupied(r.entries, BINDING_CAPACITY)
      && (forall es: Entries :: RawRegistry(s, es) == r.(entries := es))
  {
    RegistryNumbers(role, device, r);
    var h := RegistryHeader(role, device, r);
    Inner(h, rest, 3, 11); Inner(h, rest, 11, 19); Inner(h, rest, 19, 27); Inner(h, rest, 27, 35); Inner(h, rest, 35,
        37);
  }

  lemma EntriesRoundTrip(role: Role, device: u64, receiver: u64, es: Entries, pre: seq<byte>, post: seq<byte>)
    requires AllFit(role, device, receiver, es) && |pre| == REGISTRY_HEADER_SIZE
    ensures
      var s, k := pre + EntriesBytes(es, BINDING_CAPACITY) + post, Occupied(es, BINDING_CAPACITY);
      && EntryOffset(k) == |pre| + |EntriesBytes(es, BINDING_CAPACITY)|
      && ParseEntries(role, device, receiver, s, k).Some?
      && ParseEntries(role, device, receiver, s, k).value.entries == es
  {
    var s := pre + EntriesBytes(es, BINDING_CAPACITY) + post;
    forall m | 0 <= m < BINDING_CAPACITY && !es[m].state.Empty? ensures RecordAt(es, m, s) {
      EntryRecordAt(es, m, pre, post);
    }
    ParseEncoded(role, device, receiver, es, s, BINDING_CAPACITY);
  }

  /** Decode accepts what has the right envelope, header and entry records. */
  lemma DecodeAccepts(c: Crypto, role: Role, device: u64, input: seq<byte>, r: Registry)
    requires RegistryFits(role, device, r)
    requires |input| == EntryOffset(Occupied(r.entries, BINDING_CAPACITY)) + CRC_SIZE
    requires Intact(c, input, REGISTRY_HEADER_SIZE + CRC_SIZE, REGISTRY_CAPACITY)
    requires input[0] == REGISTRY_KIND && input[1] == 1 && input[2] == RoleByte(role) && U64At(input, 3) == device
    requires input[37] == Occupied(r.entries, BINDING_CAPACITY)
    requires forall es: Entries :: RawRegistry(input, es) == r.(entries := es)
    requires
      var p := ParseEntries(role, device, r.receiver, input, Occupied(r.entries, BINDING_CAPACITY));
      p.Some? && p.value.entries == r.entries
    ensures DecodeRegistry(c, role, device, input) == Decoded(Ready, r)
  {
  }

  /** decode(encode(x)) is x. */
  lemma RegistryRoundTrip(c: Crypto, role: Role, device: u64, r: Registry)
    requires RegistryFits(role, device, r)
    ensures DecodeRegistry(c, role, device, EncodeRegistry(c, role, device, r)) == Decoded(Ready, r)
  {
    var header, entries := RegistryHeader(role, device, r), EntriesBytes(r.entries, BINDING_CAPACITY);
    var crc := Be(c.crc32(header + entries), CRC_SIZE);
    SealedIntact(c, header + entries);
    Assoc(header, entries, crc);
    RegistryFields(role, device, r, entries + crc);
    EntriesRoundTrip(role, device, r.receiver, r.entries, header, crc);
    DecodeAccepts(c, role, device, header + entries + crc, r);
  }

  lemma HeaderRebuilt(role: Role, device: u64, input: seq<byte>, es: Entries)
    requires |input| >= REGISTRY_HEADER_SIZE
    requires input[0] == REGISTRY_KIND && input[1] == 1 && input[2] == RoleByte(role) && U64At(input, 3) == device
    requires input[37] == Occupied(es, BINDING_CAPACITY)
    ensures RegistryHeader(role, device, RawRegistry(input, es)) == input[..REGISTRY_HEADER_SIZE]
  {
    BeUnbe(input[3..11]); BeUnbe(input[11..19]); BeUnbe(input[19..27]);
    BeUnbe(input[27..35]); BeUnbe(input[35..37]);
    assert [input[0], input[1], input[2]] == input[0..3] && [input[37]] == input[37..38];
    Join(input, 0, 3, 11); Join(input, 0, 11, 19); Join(input, 0, 19, 27);
    Join(input, 0, 27, 35); Join(input, 0, 35, 37); Join(input, 0, 37, 38);
  }

  /** Any bytes that decode satisfy the field rules and are the encoding of what they decode to. */
  lemma RegistryCanonical(c: Crypto, role: Role, device: u64, input: seq<byte>)
    requires DecodeRegistry(c, role, device, input).health == Ready
    ensures
      var r := DecodeRegistry(c, role, device, input).registry;
      RegistryFits(role, device, r) && EncodeRegistry(c, role, device, r) == input
  {
    var d := DecodeRegistry(c, role, device, input);
    var count: int := input[37];
    var raw := RawRegistry(input, NoEntries());
    EncodeParsed(role, device, raw.receiver, input, count);
    IntactSealed(c, input, REGISTRY_HEADER_SIZE + CRC_SIZE, REGISTRY_CAPACITY);
    HeaderRebuilt(role, device, input, d.registry.entries);
    assert input[..|input| - CRC_SIZE]
        == input[..REGISTRY_HEADER_SIZE] + input[REGISTRY_HEADER_SIZE..EntryOffset(count)];
  }

  // ------------------------------------------------------------------ retired list

  function RetiredPair(x: Retired): (s: seq<byte>)
    ensures |s| == 16
  {
    Be(x.generation, 8) + Be(x.fingerprint, 8)
  }

  function RetiredBytes(l: seq<Retired>, n: nat): (s: seq<byte>)
    requires n <= |l|
    ensures |s| == 16 * n
  {
    if n == 0 then [] else RetiredBytes(l, n - 1) + RetiredPair(l[n - 1])
  }

  function EncodeRetired(c: Crypto, l: RetiredList): seq<byte>
  {
    Sealed(c, [RETIRED_KIND, 1, |l|] + RetiredBytes(l, |l|))
  }

  function RetiredPairAt(s: seq<byte>, at: nat): Retired
    requires at + 16 <= |s|
  {
    Retired(U64At(s, at), U64At(s, at + 8))
  }

  function RetiredAt(s: seq<byte>, n: nat): (l: seq<Retired>)
    requires 3 + 16 * n <= |s|
    ensures |l| == n
  {
    if n == 0 then [] else RetiredAt(s, n - 1) + [RetiredPairAt(s, 3 + 16 * (n - 1))]
  }

  function DecodeRetired(c: Crypto, input: seq<byte>): Option<RetiredList>
  {
    if !Intact(c, input, 3 + CRC_SIZE, RETIRED_RECORD_CAPACITY) || input[0] != RETIRED_KIND || input[1] != 1 then None
    else
      var count: int := input[2];
      if count > RETIRED_CAPACITY || |input| != 3 + 16 * count + CRC_SIZE then None
      else
        var l := RetiredAt(input, count);
        if RetiredFits(l) then Some(l) else None
  }

  predicate RetiredFits(l: seq<Retired>) { forall i :: 0 <= i < |l| ==> l[i].generation != 0 }

  lemma RetiredPairRoundTrip(s: seq<byte>, at: nat, x: Retired)
    requires at + 16 <= |s| && s[at..at + 16] == RetiredPair(x)
    ensures RetiredPairAt(s, at) == x
  {
    SliceOfSlice(s, at, at + 16, 0, 8); SliceOfSlice(s, at, at + 16, 8, 16);
    assert RetiredPair(x)[0..8] == Be(x.generation, 8);
    assert RetiredPair(x)[8..16] == Be(x.fingerprint, 8);
    Widths();
    UnbeBe(x.generation, 8); UnbeBe(x.fingerprint, 8);
  }

  lemma RetiredPairRebuilt(s: seq<byte>, at: nat)
    requires at + 16 <= |s|
    ensures RetiredPair(RetiredPairAt(s, at)) == s[at..at + 16]
  {
    BeUnbe(s[at..at + 8]); BeUnbe(s[at + 8..at + 16]);
    assert s[at..at + 16] == s[at..at + 8] + s[at + 8..at + 16];
  }

  lemma {:induction false} RetiredEncodedAt(l: seq<Retired>, n: nat, s: seq<byte>)
    requires n <= |l| && 3 + 16 * n <= |s| && s[3..3 + 16 * n] == RetiredBytes(l, n)
    ensures RetiredAt(s, n) == l[..n]
  {
    if n != 0 {
      var at := 3 + 16 * (n - 1);
      SliceOfSlice(s, 3, 3 + 16 * n, 0, 16 * (n - 1));
      SliceOfSlice(s, 3, 3 + 16 * n, 16 * (n - 1), 16 * n);
      assert s[3..at] == RetiredBytes(l, n - 1);
      assert s[at..at + 16] == RetiredPair(l[n - 1]);
      RetiredEncodedAt(l, n - 1, s);
      RetiredPairRoundTrip(s, at, l[n - 1]);
    }
  }

  lemma {:induction false} SameRetired(a: seq<Retired>, b: seq<Retired>, n: nat)
    requires n <= |a| && n <= |b| && a[..n] == b[..n]
    ensures RetiredBytes(a, n) == RetiredBytes(b, n)
  {
    if n != 0 {
      assert a[..n][..n - 1] == a[..n - 1] && b[..n][..n - 1] == b[..n - 1];
      assert a[n - 1] == a[..n][n - 1] == b[..n][n - 1];
      SameRetired(a, b, n - 1);
    }
  }

  lemma {:induction false} RetiredRebuilt(s: seq<byte>, n: nat)
    requires 3 + 16 * n <= |s|
    ensures RetiredBytes(RetiredAt(s, n), n) == s[3..3 + 16 * n]
  {
    if n != 0 {
      RetiredRebuilt(s, n - 1);
      var at := 3 + 16 * (n - 1);
      RetiredPairRebuilt(s, at);
      SameRetired(RetiredAt(s, n), RetiredAt(s, n - 1), n - 1);
      assert s[3..at + 16] == s[3..at] + s[at..at + 16];
    }
  }

  lemma DecodeRetiredAccepts(c: Crypto, input: seq<byte>, l: RetiredList)
    requires RetiredFits(l) && |input| == 3 + 16 * |l| + CRC_SIZE
    requires Intact(c, input, 3 + CRC_SIZE, RETIRED_RECORD_CAPACITY)
    requires input[0] == RETIRED_KIND && input[1] == 1 && input[2] == |l|
    requires RetiredAt(input, |l|) == l
    ensures DecodeRetired(c, input) == Some(l)
  {
  }

  lemma RetiredEncodedIn(l: seq<Retired>, prefix: seq<byte>, crc: seq<byte>)
    requires |prefix| == 3
    ensures RetiredAt(prefix + RetiredBytes(l, |l|) + crc, |l|) == l
  {
    MiddleSlice(prefix, RetiredBytes(l, |l|), crc);
    RetiredEncodedAt(l, |l|, prefix + RetiredBytes(l, |l|) + crc);
    assert l[..|l|] == l;
  }

  lemma RetiredRoundTrip(c: Crypto, l: RetiredList)
    requires RetiredFits(l)
    ensures DecodeRetired(c, EncodeRetired(c, l)) == Some(l)
  {
    hide RetiredBytes, RetiredAt, DecodeRetired, RetiredFits;
    var prefix: seq<byte> := [RETIRED_KIND, 1, |l|];
    var body := prefix + RetiredBytes(l, |l|);
    SealedIntact(c, body);
    RetiredEncodedIn(l, prefix, Be(c.crc32(body), CRC_SIZE));
    DecodeRetiredAccepts(c, Sealed(c, body), l);
  }

  lemma RetiredCanonical(c: Crypto, input: seq<byte>)
    requires DecodeRetired(c, input).Some?
    ensures RetiredFits(DecodeRetired(c, input).value)
    ensures EncodeRetired(c, DecodeRetired(c, input).value) == input
  {
    hide Intact, RetiredAt, RetiredBytes, RetiredFits, Be;
    IntactSealed(c, input, 3 + CRC_SIZE, RETIRED_RECORD_CAPACITY);
    var count: int := input[2];
    RetiredRebuilt(input, count);
    assert [input[0], input[1], input[2]] == input[0..3];
    Join(input, 0, 3, 3 + 16 * count);
    assert [RETIRED_KIND, 1, input[2]] + RetiredBytes(RetiredAt(input, count), count) == input[0..3 + 16 * count];
  }

  // ------------------------------------------------------------------ receipts

  function ReceiptBody(r: ReceiptRecord): seq<byte>
  {
    [RECEIPT_KIND, 2] + Be(r.generation, 8) + Be(r.counter, 8) + Be(r.through, 8)
    + Be(|r.last|, 2) + r.last + [if r.ackPower < 0 then r.ackPower + 0x100 else r.ackPower]
  }

  function EncodeReceipt(c: Crypto, r: ReceiptRecord): seq<byte> { Sealed(c, ReceiptBody(r)) }

  predicate ReceiptFits(r: ReceiptRecord)
  {
    r.generation != 0 && r.through <= UINT64_MAX && |r.last| <= MAX_FRAME
  }

  function PowerOf(b: byte): i8 { if b < 0x80 then b else b - 0x100 }

  /** Version 1 ends after the frame and means KeepPower; version 2 adds one byte. */
  function DecodeReceipt(c: Crypto, input: seq<byte>): Option<ReceiptRecord>
  {
    if !Intact(c, input, MIN_RECEIPT, RECEIPT_CAPACITY) || input[0] != RECEIPT_KIND || !(1 <= input[1] <= 2) then None
    else
      var body := input[..|input| - CRC_SIZE];
      var size := Unbe(body[26..28]);
      if size > MAX_FRAME || |body| != 28 + size + (input[1] - 1) || U64At(body, 2) == 0 then None
      else Some(ReceiptRecord(U64At(body, 2), U64At(body, 18), U64At(body, 10), body[28..28 + size],
                              if input[1] == 2 then PowerOf(body[28 + size]) else KEEP_POWER))
  }

  lemma ReceiptRoundTrip(c: Crypto, r: ReceiptRecord)
    requires ReceiptFits(r)
    ensures DecodeReceipt(c, EncodeReceipt(c, r)) == Some(r)
  {
    var body := ReceiptBody(r);
    var input := Sealed(c, body);
    SealedIntact(c, body);
    assert body[2..10] == Be(r.generation, 8) && body[10..18] == Be(r.counter, 8) && body[18..26] == Be(r.through, 8);
    assert body[26..28] == Be(|r.last|, 2) && body[28..28 + |r.last|] == r.last;
    Widths();
    UnbeBe(r.generation, 8); UnbeBe(r.counter, 8); UnbeBe(r.through, 8); UnbeBe(|r.last|, 2);
  }

  lemma ReceiptCanonical(c: Crypto, input: seq<byte>)
    requires DecodeReceipt(c, input).Some?
    ensures ReceiptFits(DecodeReceipt(c, input).value)
    ensures input[1] == 2 ==> EncodeReceipt(c, DecodeReceipt(c, input).value) == input
    ensures input[1] == 1 ==> DecodeReceipt(c, input).value.ackPower == KEEP_POWER
  {
    IntactSealed(c, input, MIN_RECEIPT, RECEIPT_CAPACITY);
    if input[1] == 2 {
      ReceiptRebuilt(c, input);
    }
  }

  lemma ReceiptRebuilt(c: Crypto, input: seq<byte>)
    requires DecodeReceipt(c, input).Some? && input[1] == 2
    ensures ReceiptBody(DecodeReceipt(c, input).value) == input[..|input| - CRC_SIZE]
  {
    var body := input[..|input| - CRC_SIZE];
    BeUnbe(body[2..10]); BeUnbe(body[10..18]); BeUnbe(body[18..26]); BeUnbe(body[26..28]);
    var size := Unbe(body[26..28]);
    assert [body[0], body[1]] == body[0..2] && [body[28 + size]] == body[28 + size..29 + size];
    Join(body, 0, 2, 10); Join(body, 0, 10, 18); Join(body, 0, 18, 26); Join(body, 0, 26, 28);
    Join(body, 0, 28, 28 + size); Join(body, 0, 28 + size, 29 + size);
    assert body[0..29 + size] == body;
  }

  // ------------------------------------------------------------------ queue records

  function Two(v: i16): u16 { if v < 0 then v + 0x1_0000 else v }

  function SignedTwo(v: u16): i16 { if v < 0x8000 then v else v - 0x1_0000 }

  function LinkBytes(l: Link): seq<byte>
  {
    if l.known then [1] + Be(Two(l.rssiDbm), 2) + Be(Two(l.snrTenthsDb), 2) else [0, 0, 0, 0, 0]
  }

  function QueueBody(r: QueueRecord): seq<byte>
  {
    [QUEUE_KIND, 2] + Be(r.sequence, 8) + [r.slot] + Be(r.generation, 8)
    + Be(|r.frame|, 2) + r.frame + LinkBytes(r.link)
  }

  function EncodeQueue(c: Crypto, r: QueueRecord): seq<byte> { Sealed(c, QueueBody(r)) }

  /** An unknown link carries no values, so a record has a single encoding. */
  predicate LinkFits(l: Link) { l.known || (l.rssiDbm == 0 && l.snrTenthsDb == 0) }

  predicate QueueFits(r: QueueRecord)
  {
    && r.generation != 0 && r.sequence <= UINT64_MAX && r.slot < BINDING_CAPACITY
    && |r.frame| <= MAX_FRAME && LinkFits(r.link)
  }

  function LinkAt(s: seq<byte>, at: nat): Option<Link>
    requires at + 5 <= |s|
  {
    UnbeBound(s[at + 1..at + 3]); UnbeBound(s[at + 3..at + 5]); Widths();
    var l := Link(s[at] == 1, SignedTwo(Unbe(s[at + 1..at + 3])), SignedTwo(Unbe(s[at + 3..at + 5])));
    if s[at] <= 1 && LinkFits(l) then Some(l) else None
  }

  function DecodeQueue(c: Crypto, input: seq<byte>): Option<QueueRecord>
  {
    if !Intact(c, input, MIN_QUEUE_RECORD, QUEUE_RECORD_CAPACITY) || input[0] != QUEUE_KIND || !(1 <= input[1] <= 2)
      then None
    else
      var body := input[..|input| - CRC_SIZE];
      var size := Unbe(body[19..21]);
      if size > MAX_FRAME || |body| != 21 + size + 5 * (input[1] - 1)
         || U64At(body, 11) == 0 || body[10] >= BINDING_CAPACITY then None
      else
        var link := if input[1] == 2 then LinkAt(body, 21 + size) else Some(UNKNOWN_LINK);
        if link.None? then None
        else Some(QueueRecord(U64At(body, 2), U64At(body, 11), body[10], body[21..21 + size], link.value))
  }

  lemma LinkRoundTrip(l: Link, s: seq<byte>, at: nat)
    requires LinkFits(l) && at + 5 <= |s| && s[at..at + 5] == LinkBytes(l)
    ensures LinkAt(s, at) == Some(l)
  {
    var w := LinkBytes(l);
    assert s[at] == s[at..at + 5][0];
    SliceOfSlice(s, at, at + 5, 1, 3); SliceOfSlice(s, at, at + 5, 3, 5);
    Widths();
    if l.known {
      assert w[1..3] == Be(Two(l.rssiDbm), 2) && w[3..5] == Be(Two(l.snrTenthsDb), 2);
      UnbeBe(Two(l.rssiDbm), 2); UnbeBe(Two(l.snrTenthsDb), 2);
    } else {
      assert w[1..3] == Be(0, 2) && w[3..5] == Be(0, 2);
      UnbeBe(0, 2);
    }
  }

  lemma LinkRebuilt(s: seq<byte>, at: nat)
    requires at + 5 <= |s| && LinkAt(s, at).Some?
    ensures LinkFits(LinkAt(s, at).value) && LinkBytes(LinkAt(s, at).value) == s[at..at + 5]
  {
    var rssi, snr := s[at + 1..at + 3], s[at + 3..at + 5];
    BeUnbe(rssi); BeUnbe(snr);
    UnbeBound(rssi); UnbeBound(snr);
    Widths();
    assert Two(SignedTwo(Unbe(rssi))) == Unbe(rssi) && Two(SignedTwo(Unbe(snr))) == Unbe(snr);
    assert s[at..at + 5] == [s[at]] + rssi + snr;
    if s[at] == 0 {
      assert Be(0, 2) == [0, 0];
      assert [s[at]] + rssi + snr == [0, 0, 0, 0, 0];
    }
  }

  /** Where the fields of a queue record lie in its body. */
  lemma QueueFields(r: QueueRecord)
    requires QueueFits(r)
    ensures
      var body, n := QueueBody(r), |r.frame|;
      && |body| == 26 + n && body[0] == QUEUE_KIND && body[1] == 2
      && U64At(body, 2) == r.sequence && body[10] == r.slot && U64At(body, 11) == r.generation
      && Unbe(body[19..21]) == n && body[21..21 + n] == r.frame && body[21 + n..26 + n] == LinkBytes(r.link)
  {
    var body := QueueBody(r);
    assert body[2..10] == Be(r.sequence, 8) && body[10] == r.slot && body[11..19] == Be(r.generation, 8);
    assert body[19..21] == Be(|r.frame|, 2) && body[21..21 + |r.frame|] == r.frame;
    assert body[21 + |r.frame|..26 + |r.frame|] == LinkBytes(r.link);
    Widths();
    UnbeBe(r.sequence, 8); UnbeBe(r.generation, 8); UnbeBe(|r.frame|, 2);
  }

  lemma QueueRoundTrip(c: Crypto, r: QueueRecord)
    requires QueueFits(r)
    ensures DecodeQueue(c, EncodeQueue(c, r)) == Some(r)
  {
    hide QueueBody, Be, Unbe, U64At, LinkAt, LinkBytes, Sealed;
    SealedIntact(c, QueueBody(r));
    QueueFields(r);
    LinkRoundTrip(r.link, QueueBody(r), 21 + |r.frame|);
  }

  lemma QueueCanonical(c: Crypto, input: seq<byte>)
    requires DecodeQueue(c, input).Some?
    ensures QueueFits(DecodeQueue(c, input).value)
    ensures input[1] == 2 ==> EncodeQueue(c, DecodeQueue(c, input).value) == input
    ensures input[1] == 1 ==> DecodeQueue(c, input).value.link == UNKNOWN_LINK
  {
    IntactSealed(c, input, MIN_QUEUE_RECORD, QUEUE_RECORD_CAPACITY);
    var body := input[..|input| - CRC_SIZE];
    BeUnbe(body[2..10]); BeUnbe(body[11..19]); BeUnbe(body[19..21]);
    if input[1] == 2 {
      var size := Unbe(body[19..21]);
      LinkRebuilt(body, 21 + size);
      assert [body[0], body[1]] == body[0..2] && [body[10]] == body[10..11];
      Join(body, 0, 2, 10); Join(body, 0, 10, 11); Join(body, 0, 11, 19); Join(body, 0, 19, 21);
      Join(body, 0, 21, 21 + size); Join(body, 0, 21 + size, 21 + size + 5);
      assert body[0..21 + size + 5] == body;
    }
  }

  // ------------------------------------------------------------------ head

  function EncodeHead(c: Crypto, sequence: nat): seq<byte> { Sealed(c, [HEAD_KIND, 1] + Be(sequence, 8)) }

  function DecodeHead(c: Crypto, input: seq<byte>): Option<u64>
  {
    if !Intact(c, input, HEAD_SIZE, HEAD_SIZE) || input[0] != HEAD_KIND || input[1] != 1 then None
    else Some(U64At(input, 2))
  }

  lemma HeadRoundTrip(c: Crypto, sequence: u64)
    ensures DecodeHead(c, EncodeHead(c, sequence)) == Some(sequence)
  {
    var body := [HEAD_KIND, 1] + Be(sequence, 8);
    SealedIntact(c, body);
    assert Sealed(c, body)[2..10] == Be(sequence, 8);
    Widths();
    UnbeBe(sequence, 8);
  }

  lemma HeadCanonical(c: Crypto, input: seq<byte>)
    requires DecodeHead(c, input).Some?
    ensures EncodeHead(c, DecodeHead(c, input).value) == input
  {
    IntactSealed(c, input, HEAD_SIZE, HEAD_SIZE);
    BeUnbe(input[2..10]);
    assert input[..10] == [input[0], input[1]] + input[2..10];
  }

  // ------------------------------------------------------------------ names

  function HexDigit(n: nat): char
    requires n < 16
  {
    if n < 10 then '0' + n as char else 'a' + (n - 10) as char
  }

  function RecordName(prefix: char, index: nat): string
    requires index < 256
  {
    [prefix, HexDigit(index / 16), HexDigit(index % 16)]
  }

  function ReceiptKey(slot: nat): string
    requires slot < BINDING_CAPACITY
  {
    RecordName('r', slot)
  }

  function QueueKey(sequence: nat): string { RecordName('q', sequence % QUEUE_CAPACITY) }

  /** Two slots never share a record name; two sequences do exactly when they are a ring apart. */
  lemma NamesApart(a: nat, b: nat)
    ensures a < BINDING_CAPACITY && b < BINDING_CAPACITY ==> (ReceiptKey(a) == ReceiptKey(b) <==> a == b)
    ensures QueueKey(a) == QueueKey(b) <==> a % QUEUE_CAPACITY == b % QUEUE_CAPACITY
    ensures a < BINDING_CAPACITY ==> ReceiptKey(a) != QueueKey(b)
  {
    var x, y := a % QUEUE_CAPACITY, b % QUEUE_CAPACITY;
    if QueueKey(a) == QueueKey(b) {
      assert QueueKey(a)[1] == QueueKey(b)[1] && QueueKey(a)[2] == QueueKey(b)[2];
      assert x / 16 == y / 16 && x % 16 == y % 16;
    }
    if a < BINDING_CAPACITY {
      assert ReceiptKey(a)[0] == 'r' && QueueKey(b)[0] == 'q';
      if b < BINDING_CAPACITY && ReceiptKey(a) == ReceiptKey(b) {
        assert ReceiptKey(a)[1] == ReceiptKey(b)[1] && ReceiptKey(a)[2] == ReceiptKey(b)[2];
      }
    }
  }
}
