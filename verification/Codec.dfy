// DATA and ACK frames (codec.cpp): the wire format, `seal`, `open` and the untrusted hints.
module Codec {
  import opened Wire
  import opened Protocol

  const MAGIC: seq<byte> := [67, 74, 76, 82]

  predicate KnownVersion(version: byte) { version == WIRE_V1 || version == WIRE_V2 }

  predicate Usable(b: Binding) { b.active && b.network != 0 && b.node != 0 }

  // ------------------------------------------------------------------ validation

  predicate ValidReading(r: Reading)
  {
    && r.sensor != 0 && r.metric != 0 && r.unit != 0
    && r.status <= 2
    && (r.status != 0 ==> r.milliValue == 0)
  }

  ghost predicate DistinctValid(rs: seq<Reading>)
  {
    && (forall i :: 0 <= i < |rs| ==> ValidReading(rs[i]))
    && (forall i, j :: 0 <= j < i < |rs| ==> !SameQuantity(rs[i], rs[j]))
  }

  /** Field checks and unique (sensor, metric) pairs among the first `count` readings. */
  ghost predicate ValidData(d: Data)
  {
    0 < d.count <= MAX_READINGS && d.nextSeconds != 0 && DistinctValid(d.readings[..d.count])
  }

  predicate SameQuantity(a: Reading, b: Reading) { a.sensor == b.sensor && a.metric == b.metric }

  /** `validData`: the nested loops over readings. */
  method CheckData(d: Data) returns (ok: bool)
    ensures ok <==> ValidData(d)
  {
    if d.count == 0 || d.count > MAX_READINGS || d.nextSeconds == 0 {
      return false;
    }
    for i := 0 to d.count
      invariant forall k :: 0 <= k < i ==> ValidReading(d.readings[k])
      invariant forall k, l :: 0 <= l < k < i ==> !SameQuantity(d.readings[k], d.readings[l])
    {
      if !ValidReading(d.readings[i]) {
        return false;
      }
      for j := 0 to i
        invariant forall l :: 0 <= l < j ==> !SameQuantity(d.readings[i], d.readings[l])
      {
        if SameQuantity(d.readings[i], d.readings[j]) {
          return false;
        }
      }
    }
    return true;
  }

  // ------------------------------------------------------------------ payload layout

  /** Two's complement on the wire. */
  function Unsigned(v: i32): u32 { if v < 0 then v + 0x1_0000_0000 else v }

  function Signed(v: u32): i32 { if v <= 0x7fff_ffff then v else v - 0x1_0000_0000 }

  function SignedByte(v: byte): i8 { if v < 0x80 then v else v - 0x100 }

  function UnsignedByte(v: i8): byte { if v < 0 then v + 0x100 else v }

  function ReadingBytes(r: Reading): (s: seq<byte>)
    ensures |s| == READING_SIZE
  {
    Be(r.sensor, 2) + Be(r.metric, 2) + [r.unit, r.status] + Be(Unsigned(r.milliValue), 4)
  }

  /** The first `n` readings. */
  function ReadingsBytes(rs: seq<Reading>, n: nat): (s: seq<byte>)
    requires n <= |rs|
    ensures |s| == 10 * n
  {
    if n == 0 then [] else ReadingsBytes(rs, n - 1) + ReadingBytes(rs[n - 1])
  }

  function DataPrefix(d: Data): (s: seq<byte>)
    ensures |s| == DATA_PREFIX_SIZE
  {
    Be(d.batteryMv, 2) + Be(d.nextSeconds, 4) + [d.count]
  }

  function AckLength(version: byte): nat { if version == WIRE_V2 then TAG_SIZE + 1 else TAG_SIZE }

  function Payload(m: Message): seq<byte>
    requires m.kind.DataKind? ==> m.data.count <= MAX_READINGS
  {
    match m.kind
    case DataKind => DataPrefix(m.data) + ReadingsBytes(m.data.readings, m.data.count)
    case AckKind => m.dataTag + if m.version == WIRE_V2 then [UnsignedByte(m.powerDbm)] else []
  }

  function Header(kind: byte, version: byte, network: u64, node: u64, counter: u64, length: nat): (h: seq<byte>)
    ensures |h| == HEADER_SIZE
  {
    MAGIC + [version, kind] + Be(network, 8) + Be(node, 8) + Be(counter, 8) + Be(length, 2)
  }

  // ------------------------------------------------------------------ seal

  ghost predicate Sealable(m: Message)
  {
    && m.counter != 0
    && KnownVersion(m.version)
    && (m.version == WIRE_V1 ==> m.powerDbm == KEEP_POWER)
    && (m.kind.DataKind? ==> ValidData(m.data))
  }

  /** The authenticated header of the frame that carries `m` under `b`. */
  function HeaderOf(b: Binding, m: Message): (h: seq<byte>)
    requires m.kind.DataKind? ==> m.data.count <= MAX_READINGS
    ensures |h| == HEADER_SIZE
  {
    Header(KindByte(m.kind), m.version, b.network, b.node, m.counter, |Payload(m)|)
  }

  function NonceOf(m: Message): seq<byte> { Nonce(KindByte(m.kind), m.version, m.counter) }

  function SealFrame(c: Crypto, b: Binding, m: Message): Frame
    requires m.kind.DataKind? ==> m.data.count <= MAX_READINGS
  {
    var s := c.encrypt(b.key, NonceOf(m), HeaderOf(b, m), Payload(m));
    HeaderOf(b, m) + s.cipher + s.tag
  }

  ghost function Seal(c: Crypto, b: Binding, m: Message): Outcome<Frame>
  {
    if !Usable(b) then Failed(Unauthorized)
    else if !Sealable(m) then Failed(Invalid)
    else Done(SealFrame(c, b, m))
  }

  // ------------------------------------------------------------------ open

  function ReadingAt(p: seq<byte>, at: nat): Reading
    requires at + READING_SIZE <= |p|
  {
    UnbeBound(p[at..at + 2]); UnbeBound(p[at + 2..at + 4]); UnbeBound(p[at + 6..at + 10]);
    Widths();
    Reading(Unbe(p[at..at + 2]), Unbe(p[at + 2..at + 4]), p[at + 4], p[at + 5],
            Signed(Unbe(p[at + 6..at + 10])))
  }

  predicate CountFits(p: seq<byte>)
    requires |p| >= DATA_PREFIX_SIZE
  {
    p[6] <= MAX_READINGS && |p| == 7 + 10 * p[6]
  }

  function ReadingsOf(p: seq<byte>): Readings
    requires |p| >= DATA_PREFIX_SIZE && CountFits(p)
  {
    seq(MAX_READINGS, i requires 0 <= i < MAX_READINGS =>
      if i < p[6] then ReadingAt(p, 7 + 10 * i) else NO_READING)
  }

  function DataOf(p: seq<byte>): Data
    requires |p| >= DATA_PREFIX_SIZE && CountFits(p)
  {
    UnbeBound(p[0..2]); UnbeBound(p[2..6]);
    Widths();
    Data(Unbe(p[0..2]), Unbe(p[2..6]), p[6], ReadingsOf(p))
  }

  predicate Shaped(f: Frame)
  {
    && HEADER_SIZE + TAG_SIZE <= |f| <= MAX_FRAME
    && f[..4] == MAGIC
    && KnownVersion(f[4])
    && (f[5] == 1 || f[5] == 2)
  }

  function CounterAt(f: Frame): u64
    requires |f| >= HEADER_SIZE
  {
    UnbeBound(f[22..30]); Widths();
    Unbe(f[22..30])
  }

  function LengthAt(f: Frame): nat
    requires |f| >= HEADER_SIZE
  {
    Unbe(f[30..32])
  }

  predicate LengthFits(f: Frame)
    requires Shaped(f)
  {
    var length := LengthAt(f);
    && CounterAt(f) != 0
    && length <= MAX_PAYLOAD
    && |f| == HEADER_SIZE + length + TAG_SIZE
    && (f[5] == 2 ==> length == AckLength(f[4]))
    && (f[5] == 1 ==> length >= MIN_DATA_PAYLOAD && (length - DATA_PREFIX_SIZE) % READING_SIZE == 0)
  }

  function Decrypted(c: Crypto, b: Binding, f: Frame): Option<seq<byte>>
    requires Shaped(f) && LengthFits(f)
  {
    var length := LengthAt(f);
    c.decrypt(b.key, Nonce(f[5], f[4], CounterAt(f)), f[..HEADER_SIZE],
              f[HEADER_SIZE..HEADER_SIZE + length], f[HEADER_SIZE + length..])
  }

  /** Decryption yields as many bytes as the header announced. */
  lemma DecryptedLength(c: Crypto, b: Binding, f: Frame)
    requires Shaped(f) && LengthFits(f) && Decrypted(c, b, f).Some?
    ensures |Decrypted(c, b, f).value| == LengthAt(f)
  {
    var length := LengthAt(f);
    var k, n, a := b.key, Nonce(f[5], f[4], CounterAt(f)), f[..HEADER_SIZE];
    var p := Decrypted(c, b, f).value;
    assert c.encrypt(k, n, a, p)
        == Sealed(f[HEADER_SIZE..HEADER_SIZE + length], f[HEADER_SIZE + length..]);
  }

  ghost function Interpret(f: Frame, plain: seq<byte>): Outcome<Message>
    requires Shaped(f) && LengthFits(f) && |plain| == LengthAt(f)
  {
    if f[5] == 2 then
      Done(Message(AckKind, f[4], CounterAt(f), NO_DATA, plain[..TAG_SIZE],
                   if f[4] == WIRE_V2 then SignedByte(plain[TAG_SIZE]) else KEEP_POWER))
    else if !CountFits(plain) || !ValidData(DataOf(plain)) then Failed(Invalid)
    else Done(Message(DataKind, f[4], CounterAt(f), DataOf(plain), ZERO16, KEEP_POWER))
  }

  ghost function Open(c: Crypto, b: Binding, f: Frame): Outcome<Message>
  {
    if !Usable(b) then Failed(Unauthorized)
    else if !Shaped(f) then Failed(Invalid)
    else if Unbe(f[6..14]) != b.network || Unbe(f[14..22]) != b.node then Failed(Unauthorized)
    else if !LengthFits(f) then Failed(Invalid)
    else match Decrypted(c, b, f)
      case None => Failed(CryptoError)
      case Some(plain) => DecryptedLength(c, b, f); Interpret(f, plain)
  }

  // ------------------------------------------------------------------ field lemmas

  /** Where each header field lies, and that it reads back. */
  lemma HeaderFields(kind: byte, version: byte, network: u64, node: u64, counter: u64, length: nat, rest: seq<byte>)
    requires length < 0x1_0000
    ensures
      var f := Header(kind, version, network, node, counter, length) + rest;
      && f[..4] == MAGIC && f[4] == version && f[5] == kind
      && Unbe(f[6..14]) == network && Unbe(f[14..22]) == node
      && CounterAt(f) == counter && LengthAt(f) == length
  {
    var f := Header(kind, version, network, node, counter, length) + rest;
    assert f[6..14] == Be(network, 8) && f[14..22] == Be(node, 8);
    assert f[22..30] == Be(counter, 8) && f[30..32] == Be(length, 2);
    Widths();
    UnbeBe(network, 8); UnbeBe(node, 8); UnbeBe(counter, 8); UnbeBe(length, 2);
  }

  /** A shaped frame starts with the header of its own fields. */
  lemma HeaderRebuilt(f: Frame)
    requires |f| >= HEADER_SIZE && f[..4] == MAGIC
    ensures Unbe(f[6..14]) < 0x1_0000_0000_0000_0000 && Unbe(f[14..22]) < 0x1_0000_0000_0000_0000
    ensures f[..HEADER_SIZE] == Header(f[5], f[4], Unbe(f[6..14]), Unbe(f[14..22]), CounterAt(f), LengthAt(f))
  {
    BeUnbe(f[6..14]); BeUnbe(f[14..22]); BeUnbe(f[22..30]); BeUnbe(f[30..32]);
    UnbeBound(f[6..14]); UnbeBound(f[14..22]);
    Widths();
    assert [f[4], f[5]] == f[4..6];
    Join(f, 0, 4, 6); Join(f, 0, 6, 14); Join(f, 0, 14, 22); Join(f, 0, 22, 30); Join(f, 0, 30, 32);
  }

  lemma ReadingRoundTrip(r: Reading, before: seq<byte>, after: seq<byte>)
    ensures ReadingAt(before + ReadingBytes(r) + after, |before|) == r
  {
    var p, at := before + ReadingBytes(r) + after, |before|;
    assert p[at..at + 2] == Be(r.sensor, 2) && p[at + 2..at + 4] == Be(r.metric, 2);
    assert p[at + 6..at + 10] == Be(Unsigned(r.milliValue), 4);
    Widths();
    UnbeBe(r.sensor, 2); UnbeBe(r.metric, 2); UnbeBe(Unsigned(r.milliValue), 4);
  }

  lemma ReadingRebuilt(p: seq<byte>, at: nat)
    requires at + READING_SIZE <= |p|
    ensures ReadingBytes(ReadingAt(p, at)) == p[at..at + READING_SIZE]
  {
    BeUnbe(p[at..at + 2]); BeUnbe(p[at + 2..at + 4]); BeUnbe(p[at + 6..at + 10]);
    UnbeBound(p[at + 6..at + 10]);
    Widths();
    assert [p[at + 4], p[at + 5]] == p[at + 4..at + 6];
    Join(p, at, at + 2, at + 4); Join(p, at, at + 4, at + 6); Join(p, at, at + 6, at + 10);
  }

  /** The i-th reading lies at its fixed offset. */
  lemma {:induction false} ReadingsAt(rs: seq<Reading>, n: nat, i: nat) returns (after: seq<byte>)
    requires i < n <= |rs|
    ensures ReadingsBytes(rs, n) == ReadingsBytes(rs, i) + ReadingBytes(rs[i]) + after
  {
    if i == n - 1 {
      after := [];
    } else {
      var rest := ReadingsAt(rs, n - 1, i);
      after := rest + ReadingBytes(rs[n - 1]);
      Assoc(ReadingsBytes(rs, i) + ReadingBytes(rs[i]), rest, ReadingBytes(rs[n - 1]));
    }
  }

  /** Bytes made of whole readings are the encoding of the readings they hold. */
  lemma {:induction false} ReadingsRebuilt(p: seq<byte>, rs: seq<Reading>, n: nat)
    requires |p| >= 7 + 10 * n && n <= |rs|
    requires forall i :: 0 <= i < n ==> rs[i] == ReadingAt(p, 7 + 10 * i)
    ensures ReadingsBytes(rs, n) == p[7..7 + 10 * n]
  {
    if n != 0 {
      ReadingsRebuilt(p, rs, n - 1);
      ReadingRebuilt(p, 7 + 10 * (n - 1));
      Join(p, 7, 7 + 10 * (n - 1), 7 + 10 * n);
    }
  }

  // ------------------------------------------------------------------ inverse and canonical

  function NormalData(d: Data): Data
  {
    Data(d.batteryMv, d.nextSeconds, d.count,
         seq(MAX_READINGS, i requires 0 <= i < MAX_READINGS =>
           if i < d.count then d.readings[i] else NO_READING))
  }

  /** What survives a trip: unused readings and fields of the other frame type are zeroed. */
  function Normal(m: Message): Message
  {
    match m.kind
    case DataKind =>
      Message(DataKind, m.version, m.counter, NormalData(m.data), ZERO16, KEEP_POWER)
    case AckKind =>
      Message(AckKind, m.version, m.counter, NO_DATA, m.dataTag,
              if m.version == WIRE_V2 then m.powerDbm else KEEP_POWER)
  }

  lemma ReadingInPayload(d: Data, i: nat)
    requires d.count <= MAX_READINGS && i < d.count
    ensures ReadingAt(DataPrefix(d) + ReadingsBytes(d.readings, d.count), 7 + 10 * i) == d.readings[i]
  {
    var before, mine := ReadingsBytes(d.readings, i), ReadingBytes(d.readings[i]);
    var after := ReadingsAt(d.readings, d.count, i);
    Assoc(DataPrefix(d), before + mine, after);
    Assoc(DataPrefix(d), before, mine);
    ReadingRoundTrip(d.readings[i], DataPrefix(d) + before, after);
  }

  lemma PrefixInPayload(d: Data, rest: seq<byte>)
    ensures var p := DataPrefix(d) + rest;
      Unbe(p[0..2]) == d.batteryMv && Unbe(p[2..6]) == d.nextSeconds && p[6] == d.count
  {
    var p := DataPrefix(d) + rest;
    assert p[0..2] == Be(d.batteryMv, 2) && p[2..6] == Be(d.nextSeconds, 4);
    Widths();
    UnbeBe(d.batteryMv, 2); UnbeBe(d.nextSeconds, 4);
  }

  lemma DataRoundTrip(d: Data)
    requires d.count <= MAX_READINGS
    ensures
      var p := DataPrefix(d) + ReadingsBytes(d.readings, d.count);
      CountFits(p) && DataOf(p) == NormalData(d)
  {
    var rest := ReadingsBytes(d.readings, d.count);
    var p := DataPrefix(d) + rest;
    PrefixInPayload(d, rest);
    assert |p| == 7 + 10 * d.count;
    forall i | 0 <= i < MAX_READINGS
      ensures ReadingsOf(p)[i] == NormalData(d).readings[i]
    {
      if i < d.count {
        ReadingInPayload(d, i);
      }
    }
    assert ReadingsOf(p) == NormalData(d).readings;
  }

  lemma DataRebuilt(p: seq<byte>)
    requires |p| >= DATA_PREFIX_SIZE && CountFits(p)
    ensures DataPrefix(DataOf(p)) + ReadingsBytes(DataOf(p).readings, DataOf(p).count) == p
  {
    BeUnbe(p[0..2]); BeUnbe(p[2..6]);
    assert [p[6]] == p[6..7];
    Join(p, 0, 2, 6); Join(p, 0, 6, 7);
    ReadingsRebuilt(p, DataOf(p).readings, p[6]);
    Join(p, 0, 7, |p|);
  }

  /** ValidData looks only at the first `count` readings. */
  lemma ValidDataNormal(d: Data, e: Data)
    requires d.count == e.count && d.nextSeconds == e.nextSeconds
    requires forall i :: 0 <= i < d.count && i < MAX_READINGS ==> d.readings[i] == e.readings[i]
    ensures ValidData(d) <==> ValidData(e)
  {
    if d.count <= MAX_READINGS {
      assert d.readings[..d.count] == e.readings[..d.count];
    }
  }

  lemma PayloadBound(m: Message)
    requires Sealable(m)
    ensures |Payload(m)| <= MAX_PAYLOAD
    ensures m.kind.AckKind? ==> |Payload(m)| == AckLength(m.version)
    ensures m.kind.DataKind? ==> |Payload(m)| == 7 + 10 * m.data.count
  {
  }

  lemma SealedHeader(c: Crypto, b: Binding, m: Message)
    requires Usable(b) && Sealable(m)
    ensures
      var f := SealFrame(c, b, m);
      && |f| == HEADER_SIZE + |Payload(m)| + TAG_SIZE
      && f[..HEADER_SIZE] == HeaderOf(b, m)
      && f[..4] == MAGIC && f[4] == m.version && f[5] == KindByte(m.kind)
      && CounterAt(f) == m.counter && LengthAt(f) == |Payload(m)|
      && Unbe(f[6..14]) == b.network && Unbe(f[14..22]) == b.node
  {
    PayloadBound(m);
    var p := Payload(m);
    var s := c.encrypt(b.key, NonceOf(m), HeaderOf(b, m), p);
    assert |s.cipher| == |p|;
    HeaderFields(KindByte(m.kind), m.version, b.network, b.node, m.counter, |p|, s.cipher + s.tag);
    assert SealFrame(c, b, m) == HeaderOf(b, m) + (s.cipher + s.tag);
  }

  /** A sealed frame has the fields `open` checks and decrypts to its payload. */
  lemma SealedFields(c: Crypto, b: Binding, m: Message)
    requires Usable(b) && Sealable(m)
    ensures
      var f := SealFrame(c, b, m);
      Shaped(f) && LengthFits(f) && Decrypted(c, b, f) == Some(Payload(m))
  {
    SealedHeader(c, b, m);
    PayloadBound(m);
    var p, h, f := Payload(m), HeaderOf(b, m), SealFrame(c, b, m);
    var s := c.encrypt(b.key, NonceOf(m), h, p);
    assert |s.cipher| == |p|;
    assert f[HEADER_SIZE..HEADER_SIZE + |p|] == s.cipher;
    assert f[HEADER_SIZE + |p|..] == s.tag;
    assert c.decrypt(b.key, NonceOf(m), h, s.cipher, s.tag) == Some(p);
  }

  /** open after seal returns the normalised message. */
  lemma OpenSeal(c: Crypto, b: Binding, m: Message)
    requires Seal(c, b, m).Done?
    ensures Open(c, b, Seal(c, b, m).value) == Done(Normal(m))
  {
    SealedHeader(c, b, m);
    SealedFields(c, b, m);
    var p := Payload(m);
    match m.kind {
      case DataKind =>
        DataRoundTrip(m.data);
        ValidDataNormal(m.data, DataOf(p));
      case AckKind =>
        assert p[..TAG_SIZE] == m.dataTag;
    }
  }

  /** The payload and header of the message an opened frame yields are the frame's own. */
  lemma OpenedParts(c: Crypto, b: Binding, f: Frame)
    requires Open(c, b, f).Done?
    ensures Sealable(Open(c, b, f).value)
    ensures Payload(Open(c, b, f).value) == Decrypted(c, b, f).value
    ensures HeaderOf(b, Open(c, b, f).value) == f[..HEADER_SIZE]
  {
    var m := Open(c, b, f).value;
    var plain := Decrypted(c, b, f).value;
    DecryptedLength(c, b, f);
    HeaderRebuilt(f);
    if m.kind.DataKind? {
      DataRebuilt(plain);
    } else if f[4] == WIRE_V2 {
      assert [plain[TAG_SIZE]] == plain[TAG_SIZE..];
      Join(plain, 0, TAG_SIZE, |plain|);
    }
  }

  lemma OpenedNormal(c: Crypto, b: Binding, f: Frame)
    requires Open(c, b, f).Done?
    ensures Normal(Open(c, b, f).value) == Open(c, b, f).value
  {
    var plain := Decrypted(c, b, f).value;
    DecryptedLength(c, b, f);
    if f[5] == 1 {
      assert NormalData(DataOf(plain)).readings == ReadingsOf(plain);
    }
  }

  /** A frame that opens is exactly what seal emits for the message it yields. */
  lemma SealOpen(c: Crypto, b: Binding, f: Frame)
    requires Open(c, b, f).Done?
    ensures Seal(c, b, Open(c, b, f).value) == Done(f)
    ensures Normal(Open(c, b, f).value) == Open(c, b, f).value
  {
    var m := Open(c, b, f).value;
    OpenedParts(c, b, f);
    var end := HEADER_SIZE + LengthAt(f);
    assert c.encrypt(b.key, NonceOf(m), HeaderOf(b, m), Payload(m))
        == Sealed(f[HEADER_SIZE..end], f[end..]);
    assert f == f[..HEADER_SIZE] + f[HEADER_SIZE..end] + f[end..] by {
      assert f[..end] == f[..HEADER_SIZE] + f[HEADER_SIZE..end];
      assert f == f[..end] + f[end..];
    }
    OpenedNormal(c, b, f);
  }

  // ------------------------------------------------------------------ untrusted hints

  function UntrustedType(f: Frame): byte
  {
    if !(HEADER_SIZE <= |f| <= MAX_FRAME) then 0
    else if f[..4] != MAGIC || !KnownVersion(f[4]) || |f| < HEADER_SIZE + LengthAt(f) then 0
    else f[5]
  }

  function UntrustedDataNode(f: Frame): u64
  {
    if !(HEADER_SIZE + MIN_DATA_PAYLOAD + TAG_SIZE <= |f| <= MAX_FRAME) then 0
    else
      var length := LengthAt(f);
      if || f[..4] != MAGIC || !KnownVersion(f[4]) || f[5] != 1
         || length < MIN_DATA_PAYLOAD || |f| != HEADER_SIZE + length + TAG_SIZE
         || (length - DATA_PREFIX_SIZE) % READING_SIZE != 0
      then 0
      else UnbeBound(f[14..22]); Widths(); Unbe(f[14..22])
  }

  /** Every frame that opens as DATA is routed to the node it authenticates as, never to pairing. */
  lemma OpenedRoutes(c: Crypto, b: Binding, f: Frame)
    requires Open(c, b, f).Done?
    ensures UntrustedType(f) == KindByte(Open(c, b, f).value.kind)
    ensures Open(c, b, f).value.kind.DataKind? ==> UntrustedDataNode(f) == b.node
  {
  }

  /** The counter, version and tag a receiver reads from an opened frame are the frame's own bytes. */
  lemma OpenedFields(c: Crypto, b: Binding, f: Frame)
    requires Open(c, b, f).Done?
    ensures 48 <= |f| <= MAX_FRAME
    ensures Open(c, b, f).value.version == f[4]
    ensures Open(c, b, f).value.counter == CounterAt(f) != 0
  {
  }

  // ------------------------------------------------------------------ the byte-buffer code

  /** Appends a field after the bytes already written. */
  method PutNext(h: array<byte>, at: nat, value: nat, size: nat, ghost done: seq<byte>)
    requires at + size <= h.Length && h[..at] == done
    modifies h
    ensures h[..at + size] == done + Be(value, size)
  {
    Put(h, at, value, size);
    assert h[..at] == done;
    Join(h[..], 0, at, at + size);
  }

  method PutReading(plain: array<byte>, at: nat, r: Reading, ghost done: seq<byte>)
    requires at + READING_SIZE <= plain.Length && plain[..at] == done
    modifies plain
    ensures plain[..at + READING_SIZE] == done + ReadingBytes(r)
  {
    PutNext(plain, at, r.sensor, 2, done);
    ghost var sensor := Be(r.sensor, 2);
    PutNext(plain, at + 2, r.metric, 2, done + sensor);
    plain[at + 4] := r.unit;
    plain[at + 5] := r.status;
    ghost var head := sensor + Be(r.metric, 2);
    Assoc(done, sensor, Be(r.metric, 2));
    assert plain[..at + 6] == done + head + [r.unit, r.status];
    PutNext(plain, at + 6, Unsigned(r.milliValue), 4, done + head + [r.unit, r.status]);
    Assoc(done, head, [r.unit, r.status]);
    Assoc(done, head + [r.unit, r.status], Be(Unsigned(r.milliValue), 4));
  }

  method PutData(plain: array<byte>, d: Data) returns (length: nat)
    requires plain.Length == MAX_PAYLOAD && d.count <= MAX_READINGS
    modifies plain
    ensures length <= MAX_PAYLOAD
    ensures plain[..length] == DataPrefix(d) + ReadingsBytes(d.readings, d.count)
  {
    PutNext(plain, 0, d.batteryMv, 2, []);
    PutNext(plain, 2, d.nextSeconds, 4, Be(d.batteryMv, 2));
    plain[6] := d.count;
    assert plain[..7] == DataPrefix(d) + ReadingsBytes(d.readings, 0);
    for i := 0 to d.count
      invariant plain[..7 + 10 * i] == DataPrefix(d) + ReadingsBytes(d.readings, i)
    {
      PutReading(plain, 7 + 10 * i, d.readings[i], DataPrefix(d) + ReadingsBytes(d.readings, i));
      Assoc(DataPrefix(d), ReadingsBytes(d.readings, i), ReadingBytes(d.readings[i]));
    }
    length := 7 + 10 * d.count;
  }

  method PutHeader(h: array<byte>, b: Binding, m: Message, length: nat)
    requires h.Length == HEADER_SIZE
    modifies h
    ensures h[..] == Header(KindByte(m.kind), m.version, b.network, b.node, m.counter, length)
  {
    h[0], h[1], h[2], h[3] := MAGIC[0], MAGIC[1], MAGIC[2], MAGIC[3];
    h[4] := m.version;
    h[5] := KindByte(m.kind);
    assert h[..6] == MAGIC + [m.version, KindByte(m.kind)];
    ghost var done := MAGIC + [m.version, KindByte(m.kind)];
    PutNext(h, 6, b.network, 8, done);
    done := done + Be(b.network, 8);
    PutNext(h, 14, b.node, 8, done);
    done := done + Be(b.node, 8);
    PutNext(h, 22, m.counter, 8, done);
    done := done + Be(m.counter, 8);
    PutNext(h, 30, length, 2, done);
    assert h[..] == h[..32];
  }

  /** `seal`: checks, fills the payload and header buffers, encrypts. */
  method RunSeal(c: Crypto, b: Binding, m: Message) returns (result: Result, out: Frame)
    ensures Seal(c, b, m) == if result == Ok then Done(out) else Failed(result)
  {
    out := [];
    if !Usable(b) {
      return Unauthorized, [];
    }
    if m.counter == 0 || !KnownVersion(m.version) || (m.version == WIRE_V1 && m.powerDbm != KEEP_POWER) {
      return Invalid, [];
    }
    var plain := new byte[MAX_PAYLOAD](i => 0);
    var length := AckLength(m.version);
    if m.kind.DataKind? {
      var valid := CheckData(m.data);
      if !valid {
        return Invalid, [];
      }
      length := PutData(plain, m.data);
    } else {
      forall i | 0 <= i < TAG_SIZE {
        plain[i] := m.dataTag[i];
      }
      if m.version == WIRE_V2 {
        plain[TAG_SIZE] := UnsignedByte(m.powerDbm);
      }
      assert plain[..TAG_SIZE] == m.dataTag;
    }
    assert plain[..length] == Payload(m);
    var header := new byte[HEADER_SIZE](i => 0);
    PutHeader(header, b, m, length);
    var s := c.encrypt(b.key, NonceOf(m), header[..], plain[..length]);
    return Ok, header[..] + s.cipher + s.tag;
  }

  method GetReading(p: seq<byte>, at: nat) returns (r: Reading)
    requires at + READING_SIZE <= |p|
    ensures r == ReadingAt(p, at)
  {
    var sensor := Get(p, at, 2);
    var metric := Get(p, at + 2, 2);
    var value := Get(p, at + 6, 4);
    UnbeBound(p[at..at + 2]); UnbeBound(p[at + 2..at + 4]); UnbeBound(p[at + 6..at + 10]);
    Widths();
    r := Reading(sensor, metric, p[at + 4], p[at + 5], Signed(value));
  }

  /** The decoding half of `open` for a DATA payload. */
  method GetData(p: seq<byte>) returns (fits: bool, d: Data)
    requires |p| >= DATA_PREFIX_SIZE
    ensures fits == CountFits(p)
    ensures fits ==> d == DataOf(p)
  {
    if p[6] > MAX_READINGS || |p| != 7 + 10 * p[6] {
      return false, NO_DATA;
    }
    var battery := Get(p, 0, 2);
    var next := Get(p, 2, 4);
    UnbeBound(p[0..2]); UnbeBound(p[2..6]);
    Widths();
    var readings := NO_READINGS;
    for i := 0 to p[6]
      invariant |readings| == MAX_READINGS
      invariant forall k :: 0 <= k < i ==> readings[k] == ReadingAt(p, 7 + 10 * k)
      invariant forall k :: i <= k < MAX_READINGS ==> readings[k] == NO_READING
    {
      var r := GetReading(p, 7 + 10 * i);
      readings := readings[i := r];
    }
    assert readings == ReadingsOf(p);
    return true, Data(battery, next, p[6], readings);
  }

  /** The end of `open`: what the decrypted payload says. */
  method RunInterpret(f: Frame, counter: u64, plain: seq<byte>) returns (result: Result, out: Message)
    requires Shaped(f) && LengthFits(f) && counter == CounterAt(f) && |plain| == LengthAt(f)
    ensures Interpret(f, plain) == if result == Ok then Done(out) else Failed(result)
  {
    out := Message(DataKind, WIRE_V1, 0, NO_DATA, ZERO16, KEEP_POWER);
    if f[5] == 2 {
      return Ok, Message(AckKind, f[4], counter, NO_DATA, plain[..TAG_SIZE],
                         if f[4] == WIRE_V2 then SignedByte(plain[TAG_SIZE]) else KEEP_POWER);
    }
    var fits, d := GetData(plain);
    if !fits {
      return Invalid, out;
    }
    var valid := CheckData(d);
    if !valid {
      return Invalid, out;
    }
    return Ok, Message(DataKind, f[4], counter, d, ZERO16, KEEP_POWER);
  }

  /** `open`: every check in the source's order, then decryption and decoding. */
  method RunOpen(c: Crypto, b: Binding, f: Frame) returns (result: Result, out: Message)
    ensures Open(c, b, f) == if result == Ok then Done(out) else Failed(result)
  {
    hide Interpret, Usable, Nonce;
    out := Message(DataKind, WIRE_V1, 0, NO_DATA, ZERO16, KEEP_POWER);
    if !Usable(b) {
      return Unauthorized, out;
    }
    if |f| < HEADER_SIZE + TAG_SIZE || |f| > MAX_FRAME {
      return Invalid, out;
    }
    if f[..4] != MAGIC || !KnownVersion(f[4]) || (f[5] != 1 && f[5] != 2) {
      return Invalid, out;
    }
    var network := Get(f, 6, 8);
    var node := Get(f, 14, 8);
    if network != b.network || node != b.node {
      return Unauthorized, out;
    }
    var counter := Get(f, 22, 8);
    var length := Get(f, 30, 2);
    if || counter == 0 || length > MAX_PAYLOAD || |f| != HEADER_SIZE + length + TAG_SIZE
       || (f[5] == 2 && length != AckLength(f[4]))
       || (f[5] == 1 && (length < MIN_DATA_PAYLOAD || (length - DATA_PREFIX_SIZE) % READING_SIZE != 0)) {
      return Invalid, out;
    }
    UnbeBound(f[22..30]);
    Widths();
    var decrypted := c.decrypt(b.key, Nonce(f[5], f[4], counter), f[..HEADER_SIZE],
                               f[HEADER_SIZE..HEADER_SIZE + length], f[HEADER_SIZE + length..]);
    if decrypted.None? {
      return CryptoError, out;
    }
    DecryptedLength(c, b, f);
    result, out := RunInterpret(f, counter, decrypted.value);
  }
}
