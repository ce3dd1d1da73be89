// The cursors records.cpp writes and reads records through, and every encoder and decoder run
// over them: each stays within its buffer and computes the function of the same name in Records.
module RecordCursors {
  import opened Wire
  import opened Protocol
  import opened Records

  // ------------------------------------------------------------------ big-endian, first byte first

  /** A right shift by `bytes` bytes. */
  function Shift(n: nat, bytes: nat): nat
  {
    if bytes == 0 then n else Shift(n / 256, bytes - 1)
  }

  /** The byte `Writer::number` puts down first is the most significant one of the field. */
  lemma {:induction false} BeFirst(n: nat, size: nat)
    requires size > 0
    ensures Be(n, size) == [Shift(n, size - 1) % 256] + Be(n, size - 1)
  {
    if size > 1 {
      BeFirst(n / 256, size - 1);
      Assoc([Shift(n, size - 1) % 256], Be(n / 256, size - 2), [n % 256]);
    }
  }

  // ------------------------------------------------------------------ the writer

  class Writer {
    const output: array<byte>
    var at: nat

    ghost predicate Valid()
      reads this
    {
      at <= output.Length
    }

    ghost function Contents(): seq<byte>
      requires Valid()
      reads this, output
    {
      output[..at]
    }

    constructor (o: array<byte>)
      ensures output == o && at == 0 && Valid() && Contents() == []
    {
      output, at := o, 0;
    }

    method Number(n: nat, size: nat)
      requires Valid() && at + size <= output.Length
      modifies this`at, output
      ensures Valid() && at == old(at) + size && Contents() == old(Contents()) + Be(n, size)
    {
      for i := size downto 0
        invariant Valid() && at == old(at) + size - i
        invariant Contents() + Be(n, i) == old(Contents()) + Be(n, size)
      {
        ghost var before := Contents();
        BeFirst(n, i + 1);
        var first := Shift(n, i) % 256;
        output[at] := first;
        at := at + 1;
        assert Contents() == before + [first];
        Assoc(before, [first], Be(n, i));
      }
    }

    method Block(source: seq<byte>)
      requires Valid() && at + |source| <= output.Length
      modifies this`at, output
      ensures Valid() && at == old(at) + |source| && Contents() == old(Contents()) + source
    {
      forall i | 0 <= i < |source| {
        output[at + i] := source[i];
      }
      at := at + |source|;
    }

    /** Appends the CRC of what was written; the size of the record. */
    method Finish(c: Crypto) returns (size: nat)
      requires Valid() && at + CRC_SIZE <= output.Length
      modifies this`at, output
      ensures size == old(at) + CRC_SIZE <= output.Length && output[..size] == Records.Sealed(c, old(Contents()))
    {
      Number(c.crc32(output[..at]), CRC_SIZE);
      size := at;
    }

    /** A number after the part `done` of a record that starts after `before`. */
    method Field(n: nat, size: nat, ghost before: seq<byte>, ghost done: seq<byte>)
      requires Valid() && at + size <= output.Length && Contents() == before + done
      modifies this`at, output
      ensures Valid() && at == old(at) + size && Contents() == before + (done + Be(n, size))
    {
      Number(n, size);
      Assoc(before, done, Be(n, size));
    }

    method Byte(b: byte)
      requires Valid() && at < output.Length
      modifies this`at, output
      ensures Valid() && at == old(at) + 1 && Contents() == old(Contents()) + [b]
    {
      Number(b, 1);
      assert Be(b, 1) == [b];
    }

    method WriteFrame(f: Frame)
      requires Valid() && at + 2 + |f| <= output.Length
      modifies this`at, output
      ensures Valid() && at == old(at) + 2 + |f| && Contents() == old(Contents()) + Be(|f|, 2) + f
    {
      Number(|f|, 2);
      Block(f);
    }

    method WriteRetired(x: Retired)
      requires Valid() && at + 16 <= output.Length
      modifies this`at, output
      ensures Valid() && at == old(at) + 16 && Contents() == old(Contents()) + RetiredPair(x)
    {
      hide Contents, Be;
      ghost var before := Contents();
      Number(x.generation, 8);
      Number(x.fingerprint, 8);
      Assoc(before, Be(x.generation, 8), Be(x.fingerprint, 8));
    }

    method WriteEntry(slot: byte, e: Entry)
      requires Valid() && at + REGISTRY_ENTRY_SIZE <= output.Length
      modifies this`at, output
      ensures Valid() && at == old(at) + REGISTRY_ENTRY_SIZE && Contents() == old(Contents()) + EntryBytes(slot, e)
    {
      ghost var before := Contents();
      Byte(slot);
      Byte(StateByte(e.state));
      ghost var done: seq<byte> := [slot, StateByte(e.state)];
      assert Contents() == before + done;
      Field(e.node, 8, before, done);
      done := done + Be(e.node, 8);
      Field(e.generation, 8, before, done);
      done := done + Be(e.generation, 8);
      Block(e.key);
      Assoc(before, done, e.key);
      done := done + e.key;
      Field(e.counter, 8, before, done);
    }
  }

  // ------------------------------------------------------------------ the reader

  /** Every read past the end marks the record invalid. */
  class Reader {
    const input: seq<byte>
    const end: nat
    var at: nat
    var ok: bool

    ghost predicate Valid()
      reads this
    {
      at <= end <= |input|
    }

    constructor (bytes: seq<byte>, first: nat, finish: nat)
      requires first <= finish <= |bytes|
      ensures Valid() && input == bytes && at == first && end == finish && ok
    {
      input, at, end, ok := bytes, first, finish, true;
    }

    method Number(size: nat) returns (n: nat)
      requires Valid()
      modifies this
      ensures Valid()
      ensures old(at) + size <= end ==> at == old(at) + size && ok == old(ok) && n == Unbe(input[old(at)..at])
      ensures old(at) + size > end ==> at == end && !ok && n == 0
      ensures n < Pow256(size)
    {
      if end - at < size {
        ok := false;
        at := end;
        return 0;
      }
      n := 0;
      for i := 0 to size
        invariant Valid() && at == old(at) + i && ok == old(ok)
        invariant n == Unbe(input[old(at)..at])
      {
        assert input[old(at)..at + 1][..i] == input[old(at)..at];
        n := n * 256 + input[at];
        at := at + 1;
      }
      UnbeBound(input[old(at)..at]);
    }

    /** The bytes copied; nothing is when fewer are left. */
    method Block(size: nat) returns (bytes: seq<byte>)
      requires Valid()
      modifies this
      ensures Valid()
      ensures old(at) + size <= end ==> at == old(at) + size && ok == old(ok) && bytes == input[old(at)..at]
      ensures old(at) + size > end ==> at == end && !ok && bytes == []
    {
      if end - at < size {
        ok := false;
        at := end;
        return [];
      }
      bytes := input[at..at + size];
      at := at + size;
    }

    /** One of the fields of 1, 2 or 8 bytes. */
    method Byte() returns (b: byte)
      requires Valid()
      modifies this
      ensures Valid()
      ensures old(at) < end ==> at == old(at) + 1 && ok == old(ok) && b == input[old(at)]
      ensures old(at) >= end ==> at == end && !ok && b == 0
    {
      var n := Number(1);
      if old(at) < end {
        assert input[old(at)..at] == [input[old(at)]];
      }
      assert Pow256(1) == 256;
      b := n;
    }

    method Long() returns (n: u64)
      requires Valid()
      modifies this
      ensures Valid()
      ensures old(at) + 8 <= end ==> at == old(at) + 8 && ok == old(ok) && n == U64At(input, old(at))
      ensures old(at) + 8 > end ==> at == end && !ok && n == 0
    {
      Widths();
      var x := Number(8);
      n := x;
    }

    method Short() returns (n: u16)
      requires Valid()
      modifies this
      ensures Valid()
      ensures old(at) + 2 <= end ==> at == old(at) + 2 && ok == old(ok) && n == Unbe(input[old(at)..at])
      ensures old(at) + 2 > end ==> at == end && !ok && n == 0
    {
      Widths();
      var x := Number(2);
      n := x;
    }

    predicate Done()
      reads this
    {
      ok && at == end
    }

    /** A frame with its size before it; false when it is too long or cut short. */
    method ReadFrame() returns (fits: bool, f: Frame)
      requires Valid() && ok
      modifies this
      ensures Valid()
      ensures
        var size := if old(at) + 2 <= end then Unbe(input[old(at)..old(at) + 2]) else 0;
        && (fits <==> size <= MAX_FRAME && old(at) + 2 + size <= end)
        && (fits ==> ok && at == old(at) + 2 + size && f == input[old(at) + 2..at])
    {
      var size := Short();
      if size > MAX_FRAME {
        return false, [];
      }
      f := Block(size);
      fits := ok;
    }
  }

  // ------------------------------------------------------------------ encoders

  /** A whole registry always fits its buffer. */
  method RunEncodeRegistry(c: Crypto, role: Role, device: u64, r: Registry, output: array<byte>) returns (size: nat)
    requires output.Length >= REGISTRY_CAPACITY
    modifies output
    ensures size <= output.Length && output[..size] == EncodeRegistry(c, role, device, r)
  {
    hide EntryBytes;
    var w := new Writer(output);
    WriteHeader(w, role, device, r);
    for slot := 0 to BINDING_CAPACITY
      invariant w.Valid() && w.at == 38 + 42 * Occupied(r.entries, slot)
      invariant w.Contents() == RegistryHeader(role, device, r) + EntriesBytes(r.entries, slot)
    {
      if !r.entries[slot].state.Empty? {
        w.WriteEntry(slot, r.entries[slot]);
        Assoc(RegistryHeader(role, device, r), EntriesBytes(r.entries, slot), EntryBytes(slot, r.entries[slot]));
      }
    }
    size := w.Finish(c);
  }

  method WriteHeader(w: Writer, role: Role, device: u64, r: Registry)
    requires w.Valid() && w.Contents() == [] && w.at == 0 && w.output.Length >= REGISTRY_HEADER_SIZE
    modifies w`at, w.output
    ensures w.Valid() && w.at == REGISTRY_HEADER_SIZE && w.Contents() == RegistryHeader(role, device, r)
  {
    hide Writer.Contents, Be, Records.Sealed;
    w.Byte(REGISTRY_KIND);
    w.Byte(1);
    w.Byte(RoleByte(role));
    assert w.Contents() == [REGISTRY_KIND, 1, RoleByte(role)];
    w.Number(device, 8);
    w.Number(r.revision, 8);
    w.Number(r.network, 8);
    w.Number(r.receiver, 8);
    w.Number(r.profile, 2);
    var occupied := 0;
    for slot := 0 to BINDING_CAPACITY
      invariant occupied == Occupied(r.entries, slot)
    {
      if !r.entries[slot].state.Empty? {
        occupied := occupied + 1;
      }
    }
    w.Byte(occupied);
  }

  method RunEncodeRetired(c: Crypto, l: RetiredList, output: array<byte>) returns (size: nat)
    requires output.Length >= RETIRED_RECORD_CAPACITY
    modifies output
    ensures size <= output.Length && output[..size] == EncodeRetired(c, l)
  {
    hide Writer.Contents, Be, RetiredPair, Records.Sealed;
    var w := new Writer(output);
    w.Byte(RETIRED_KIND);
    w.Byte(1);
    w.Byte(|l|);
    ghost var head: seq<byte> := [RETIRED_KIND, 1, |l|];
    assert w.Contents() == head + RetiredBytes(l, 0);
    for i := 0 to |l|
      invariant w.Valid() && w.at == 3 + 16 * i && w.Contents() == head + RetiredBytes(l, i)
    {
      w.WriteRetired(l[i]);
      Assoc(head, RetiredBytes(l, i), RetiredPair(l[i]));
    }
    size := w.Finish(c);
  }

  method RunEncodeReceipt(c: Crypto, r: ReceiptRecord, output: array<byte>) returns (size: nat)
    requires output.Length >= RECEIPT_CAPACITY && |r.last| <= MAX_FRAME
    modifies output
    ensures size <= output.Length && output[..size] == EncodeReceipt(c, r)
  {
    hide Writer.Contents, Be, Records.Sealed;
    var w := new Writer(output);
    w.Byte(RECEIPT_KIND);
    w.Byte(2);
    assert w.Contents() == [RECEIPT_KIND, 2];
    w.Number(r.generation, 8);
    w.Number(r.counter, 8);
    w.Number(r.through, 8);
    w.WriteFrame(r.last);
    w.Byte(if r.ackPower < 0 then r.ackPower + 0x100 else r.ackPower);
    size := w.Finish(c);
  }

  method RunEncodeQueue(c: Crypto, r: QueueRecord, output: array<byte>) returns (size: nat)
    requires output.Length >= QUEUE_RECORD_CAPACITY && |r.frame| <= MAX_FRAME
    modifies output
    ensures size <= output.Length && output[..size] == EncodeQueue(c, r)
  {
    hide Writer.Contents, Be, Records.Sealed;
    var w := new Writer(output);
    w.Byte(QUEUE_KIND);
    w.Byte(2);
    assert w.Contents() == [QUEUE_KIND, 2];
    w.Number(r.sequence, 8);
    w.Byte(r.slot);
    w.Number(r.generation, 8);
    w.WriteFrame(r.frame);
    ghost var before := w.Contents();
    w.Byte(if r.link.known then 1 else 0);
    w.Number(if r.link.known then Two(r.link.rssiDbm) else 0, 2);
    w.Number(if r.link.known then Two(r.link.snrTenthsDb) else 0, 2);
    LinkWritten(before, r.link);
    size := w.Finish(c);
  }

  /** The three fields of a link, known or not. */
  lemma LinkWritten(before: seq<byte>, l: Link)
    ensures before + [if l.known then 1 else 0] + Be(if l.known then Two(l.rssiDbm) else 0, 2)
              + Be(if l.known then Two(l.snrTenthsDb) else 0, 2)
         == before + LinkBytes(l)
  {
    var x: seq<byte>, y, z := [if l.known then 1 else 0], Be(if l.known then Two(l.rssiDbm) else 0, 2),
      Be(if l.known then Two(l.snrTenthsDb) else 0, 2);
    assert Be(0, 2) == [0, 0];
    assert x + y + z == LinkBytes(l);
    assert before + x + y + z == before + (x + y + z);
  }

  method RunEncodeHead(c: Crypto, sequence: u64, output: array<byte>) returns (size: nat)
    requires output.Length >= HEAD_SIZE
    modifies output
    ensures size <= output.Length && output[..size] == EncodeHead(c, sequence)
  {
    hide Writer.Contents, Be, Records.Sealed;
    var w := new Writer(output);
    w.Byte(HEAD_KIND);
    w.Byte(1);
    assert w.Contents() == [HEAD_KIND, 1];
    w.Number(sequence, 8);
    size := w.Finish(c);
  }

  // ------------------------------------------------------------------ decoders

  /** `open`: size bounds, CRC, kind and version; on success the reader stands after the version. */
  method OpenRecord(c: Crypto, input: seq<byte>, minimum: nat, maximum: nat, kind: byte, newest: byte)
    returns (ok: bool, r: Reader, version: byte)
    requires minimum >= CRC_SIZE + 2
    ensures fresh(r) && r.Valid()
    ensures ok <==> Intact(c, input, minimum, maximum) && input[0] == kind && 1 <= input[1] <= newest
    ensures ok ==> r.input == input && r.at == 2 && r.end == |input| - CRC_SIZE && r.ok && version == input[1]
  {
    version := 0;
    r := new Reader([], 0, 0);
    if |input| < minimum || |input| > maximum {
      return false, r, version;
    }
    var trailer := new Reader(input, |input| - CRC_SIZE, |input|);
    var crc := trailer.Number(CRC_SIZE);
    assert input[|input| - CRC_SIZE..|input|] == input[|input| - CRC_SIZE..];
    if crc != c.crc32(input[..|input| - CRC_SIZE]) {
      return false, r, version;
    }
    r := new Reader(input, 0, |input| - CRC_SIZE);
    var found := r.Byte();
    if found != kind {
      return false, r, version;
    }
    version := r.Byte();
    ok := 1 <= version <= newest;
  }

  lemma BodySlice(input: seq<byte>, i: nat, j: nat)
    requires i <= j <= |input| - CRC_SIZE
    ensures input[..|input| - CRC_SIZE][i..j] == input[i..j]
  {
  }

  lemma BodyFields(input: seq<byte>, at: nat)
    requires at + 8 <= |input| - CRC_SIZE
    ensures U64At(input[..|input| - CRC_SIZE], at) == U64At(input, at)
  {
    BodySlice(input, at, at + 8);
  }

  lemma OneMoreFits(l: seq<Retired>, x: Retired)
    ensures RetiredFits(l + [x]) <==> RetiredFits(l) && x.generation != 0
  {
    var t := l + [x];
    assert t[|l|] == x && forall i | 0 <= i < |l| :: t[i] == l[i];
  }

  method RunDecodeRetired(c: Crypto, input: seq<byte>) returns (l: Option<RetiredList>)
    ensures l == DecodeRetired(c, input)
  {
    var ok, r, version := OpenRecord(c, input, 3 + CRC_SIZE, RETIRED_RECORD_CAPACITY, RETIRED_KIND, 1);
    if !ok {
      return None;
    }
    var count: int := r.Byte();
    if count > RETIRED_CAPACITY {
      return None;
    }
    var items: seq<Retired> := [];
    for i := 0 to count
      invariant r.Valid() && r.input == input && r.end == |input| - CRC_SIZE
      invariant |items| == i && 0 <= count <= RETIRED_CAPACITY
      invariant 3 + 16 * i <= r.end ==>
        r.at == 3 + 16 * i && items == RetiredAt(input, i) && (r.ok <==> RetiredFits(items))
      invariant 3 + 16 * i > r.end ==> r.at == r.end && !r.ok
    {
      var generation := r.Long();
      var mark := r.Long();
      ghost var before := items;
      items := items + [Retired(generation, mark)];
      OneMoreFits(before, Retired(generation, mark));
      if generation == 0 {
        r.ok := false;
      }
    }
    if r.Done() {
      return Some(items);
    }
    return None;
  }

  method RunDecodeReceipt(c: Crypto, input: seq<byte>) returns (receipt: Option<ReceiptRecord>)
    ensures receipt == DecodeReceipt(c, input)
  {
    var ok, r, version := OpenRecord(c, input, MIN_RECEIPT, RECEIPT_CAPACITY, RECEIPT_KIND, 2);
    if !ok {
      return None;
    }
    BodyFields(input, 2); BodyFields(input, 10); BodyFields(input, 18);
    BodySlice(input, 26, 28);
    var generation := r.Long();
    var counter := r.Long();
    var through := r.Long();
    var fits, last := r.ReadFrame();
    if fits {
      BodySlice(input, 28, 28 + |last|);
    }
    var power := KEEP_POWER;
    if fits && version >= 2 {
      var b := r.Byte();
      power := PowerOf(b);
    }
    if fits && r.Done() && generation != 0 {
      return Some(ReceiptRecord(generation, through, counter, last, power));
    }
    return None;
  }

  method RunDecodeQueue(c: Crypto, input: seq<byte>) returns (record: Option<QueueRecord>)
    ensures record == DecodeQueue(c, input)
  {
    hide Unbe, Pow256, SignedTwo;
    var ok, r, version := OpenRecord(c, input, MIN_QUEUE_RECORD, QUEUE_RECORD_CAPACITY, QUEUE_KIND, 2);
    if !ok {
      return None;
    }
    BodyFields(input, 2); BodyFields(input, 11);
    BodySlice(input, 19, 21);
    var sequence := r.Long();
    var slot := r.Byte();
    var generation := r.Long();
    var fits, f := r.ReadFrame();
    if fits {
      BodySlice(input, 21, 21 + |f|);
    }
    var link := UNKNOWN_LINK;
    if fits && version >= 2 {
      if r.at + 5 <= r.end {
        BodySlice(input, r.at + 1, r.at + 3); BodySlice(input, r.at + 3, r.at + 5);
      }
      var known := r.Byte();
      var rssi := r.Short();
      var snr := r.Short();
      link := Link(known == 1, SignedTwo(rssi), SignedTwo(snr));
      fits := known <= 1 && (known != 0 || (link.rssiDbm == 0 && link.snrTenthsDb == 0));
    }
    if fits && r.Done() && generation != 0 && slot < BINDING_CAPACITY {
      return Some(QueueRecord(sequence, generation, slot, f, link));
    }
    return None;
  }

  method RunDecodeHead(c: Crypto, input: seq<byte>) returns (sequence: Option<u64>)
    ensures sequence == DecodeHead(c, input)
  {
    var ok, r, version := OpenRecord(c, input, HEAD_SIZE, HEAD_SIZE, HEAD_KIND, 1);
    if !ok {
      return None;
    }
    var n := r.Long();
    if r.Done() {
      return Some(n);
    }
    return None;
  }

  // ------------------------------------------------------------------ the registry decoder

  /** One entry record; the reader ends after it when its fields are acceptable. */
  method ReadEntry(r: Reader, role: Role, device: u64, receiver: u64, p: Parsed) returns (next: Option<Parsed>)
    requires r.Valid() && r.ok && r.at + REGISTRY_ENTRY_SIZE <= r.end
    modifies r
    ensures r.Valid() && next == ParseStep(role, device, receiver, r.input, old(r.at), p)
    ensures next.Some? ==> r.ok && r.at == old(r.at) + REGISTRY_ENTRY_SIZE
  {
    var slot := r.Byte();
    if slot <= p.previous || slot >= BINDING_CAPACITY {
      return None;
    }
    var state := r.Byte();
    var node := r.Long();
    var generation := r.Long();
    var key := r.Block(KEY_SIZE);
    var counter := r.Long();
    if state == 0 || state > 3 {
      return None;
    }
    var e := Entry(StateOf(state), node, generation, counter, key);
    if || e.node == 0 || e.generation == 0 || !NonZero(e.key) || e.node == receiver
       || (role.Transmitter? && e.node != device) || (role.Receiver? && e.counter != 0)
       || (e.state.Prepared? && e.counter != 0) {
      return None;
    }
    return Some(Parsed(p.entries[slot := e], slot));
  }

  /** Records after one that does not parse change nothing. */
  lemma {:induction false} ParseFails(role: Role, device: u64, receiver: u64, s: seq<byte>, i: nat, n: nat)
    requires i <= n && EntryOffset(n) <= |s| && ParseEntries(role, device, receiver, s, i).None?
    ensures ParseEntries(role, device, receiver, s, n).None?
  {
    if i < n {
      ParseFails(role, device, receiver, s, i, n - 1);
    }
  }

  method RunDecodeRegistry(c: Crypto, role: Role, device: u64, input: seq<byte>) returns (d: Decoded)
    ensures d == DecodeRegistry(c, role, device, input)
  {
    hide Unbe, Pow256, ParseEntries, NoEntries;
    if |input| < REGISTRY_HEADER_SIZE + CRC_SIZE || |input| > REGISTRY_CAPACITY {
      return Decoded(Corrupt, NO_REGISTRY);
    }
    var trailer := new Reader(input, |input| - CRC_SIZE, |input|);
    var crc := trailer.Number(CRC_SIZE);
    assert input[|input| - CRC_SIZE..|input|] == input[|input| - CRC_SIZE..];
    if crc != c.crc32(input[..|input| - CRC_SIZE]) {
      return Decoded(Corrupt, NO_REGISTRY);
    }
    var r := new Reader(input, 0, |input| - CRC_SIZE);
    var kind := r.Byte();
    if kind != REGISTRY_KIND {
      return Decoded(Format, NO_REGISTRY);
    }
    var version := r.Byte();
    if version != 1 {
      return Decoded(Format, NO_REGISTRY);
    }
    var of := r.Byte();
    if of != RoleByte(role) {
      return Decoded(WrongRole, NO_REGISTRY);
    }
    var owner := r.Long();
    if owner != device {
      return Decoded(WrongDevice, NO_REGISTRY);
    }
    var revision := r.Long();
    var network := r.Long();
    var receiver := r.Long();
    var profile := r.Short();
    var count: int := r.Byte();
    if count > BINDING_CAPACITY || |input| != REGISTRY_HEADER_SIZE + count * REGISTRY_ENTRY_SIZE + CRC_SIZE {
      return Decoded(Health.Invalid, NO_REGISTRY);
    }
    var joined := network != 0 || receiver != 0 || profile != 0;
    if || revision == 0 || (count != 0 && !joined)
       || (joined && (network == 0 || receiver == 0 || profile != 1))
       || (role.Receiver? && joined && receiver != device) {
      return Decoded(Health.Invalid, NO_REGISTRY);
    }
    var entries := ReadEntries(r, role, device, receiver, count);
    if entries.None? {
      return Decoded(Health.Invalid, NO_REGISTRY);
    }
    return if r.Done() then Decoded(Ready, Registry(revision, network, receiver, profile, entries.value))
           else Decoded(Health.Invalid, NO_REGISTRY);
  }

  method ReadEntries(r: Reader, role: Role, device: u64, receiver: u64, count: nat) returns (entries: Option<Entries>)
    requires r.Valid() && r.ok && r.at == REGISTRY_HEADER_SIZE && EntryOffset(count) <= r.end
    modifies r
    ensures
      var parsed := ParseEntries(role, device, receiver, r.input, count);
      entries == if parsed.Some? then Some(parsed.value.entries) else None
    ensures entries.Some? ==> r.ok && r.at == EntryOffset(count)
  {
    hide ParseStep, EntryFits;
    var parsed := Parsed(NoEntries(), -1);
    for i := 0 to count
      invariant r.Valid() && r.ok && r.at == EntryOffset(i)
      invariant ParseEntries(role, device, receiver, r.input, i) == Some(parsed)
    {
      var next := ReadEntry(r, role, device, receiver, parsed);
      if next.None? {
        ParseFails(role, device, receiver, r.input, i + 1, count);
        return None;
      }
      parsed := next.value;
    }
    return Some(parsed.entries);
  }
}
