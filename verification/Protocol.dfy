// Protocol types (cajui_protocol.h) and the cryptographic primitives as values.
module Protocol {
  import opened Wire

  type u16 = x: int | 0 <= x < 0x1_0000
  type u32 = x: int | 0 <= x < 0x1_0000_0000
  type u64 = x: int | 0 <= x < 0x1_0000_0000_0000_0000
  type i8 = x: int | -0x80 <= x < 0x80
  type i16 = x: int | -0x8000 <= x < 0x8000
  type i32 = x: int | -0x8000_0000 <= x < 0x8000_0000

  const UINT64_MAX: u64 := 0xffff_ffff_ffff_ffff

  const HEADER_SIZE := 32
  const TAG_SIZE := 16
  const KEY_SIZE := 16
  const MAX_READINGS := 8
  const DATA_PREFIX_SIZE := 7
  const READING_SIZE := 10
  const MIN_DATA_PAYLOAD := DATA_PREFIX_SIZE + READING_SIZE
  const MAX_PAYLOAD := DATA_PREFIX_SIZE + MAX_READINGS * READING_SIZE
  const MAX_FRAME := HEADER_SIZE + MAX_PAYLOAD + TAG_SIZE
  const WIRE_V1: byte := 1
  const WIRE_V2: byte := 2
  const KEEP_POWER: i8 := 127

  const ZERO16: seq<byte> := [0, 0, 0, 0, 0, 0, 0, 0, 0, 0, 0, 0, 0, 0, 0, 0]

  type Key = k: seq<byte> | |k| == KEY_SIZE witness ZERO16
  type Tag = t: seq<byte> | |t| == TAG_SIZE witness ZERO16

  /** The used bytes of the source's fixed buffer and size. */
  type Frame = seq<byte>

  datatype Option<+T> = None | Some(value: T)

  datatype Result =
    | Ok | Invalid | Unauthorized | CryptoError | StorageError
    | Full | Replay | Conflict | Duplicate | NotFound

  /** A value with Result::Ok, or the reason there is none. */
  datatype Outcome<+T> = Done(value: T) | Failed(reason: Result)

  datatype Kind = DataKind | AckKind

  datatype Binding = Binding(network: u64, node: u64, key: Key, active: bool)

  datatype Reading = Reading(sensor: u16, metric: u16, unit: byte, status: byte, milliValue: i32)

  const NO_READING := Reading(0, 0, 0, 0, 0)
  const NO_READINGS: seq<Reading> := [
    NO_READING, NO_READING, NO_READING, NO_READING, NO_READING, NO_READING, NO_READING, NO_READING]

  type Readings = r: seq<Reading> | |r| == MAX_READINGS witness NO_READINGS

  datatype Data = Data(batteryMv: u16, nextSeconds: u32, count: byte, readings: Readings)

  const NO_DATA := Data(0, 0, 0, NO_READINGS)

  datatype Message = Message(
    kind: Kind, version: byte, counter: u64, data: Data, dataTag: Tag, powerDbm: i8)

  datatype Link = Link(known: bool, rssiDbm: i16, snrTenthsDb: i16)

  const UNKNOWN_LINK := Link(false, 0, 0)

  datatype Receipt = Receipt(counter: u64, last: Frame, link: Link, ackPower: i8)

  datatype Sealed = Sealed(cipher: seq<byte>, tag: Tag)

  /** AES-128-GCM, CRC32 and the key fingerprint, as the functions the firmware calls. */
  datatype Primitives = Primitives(
    encrypt: (Key, seq<byte>, seq<byte>, seq<byte>) -> Sealed,
    decrypt: (Key, seq<byte>, seq<byte>, seq<byte>, Tag) -> Option<seq<byte>>,
    crc32: seq<byte> -> u32,
    fingerprint: Key -> u64)

  /**
   * What GCM promises as a function: it keeps lengths, decryption inverts encryption,
   * and whatever decrypts is the encryption of the plaintext it yields.
   */
  ghost predicate Ideal(p: Primitives)
  {
    && (forall k, n, a, plain :: |p.encrypt(k, n, a, plain).cipher| == |plain|)
    && (forall k, n, a, plain ::
          p.decrypt(k, n, a, p.encrypt(k, n, a, plain).cipher, p.encrypt(k, n, a, plain).tag)
            == Some(plain))
    && (forall k, n, a, cipher, tag ::
          p.decrypt(k, n, a, cipher, tag).Some? ==>
            p.encrypt(k, n, a, p.decrypt(k, n, a, cipher, tag).value) == Sealed(cipher, tag))
  }

  /** The smallest primitives with those laws, so the type below is inhabited. */
  const TRIVIAL := Primitives(
    (k, n, a, plain) => Sealed(plain, ZERO16),
    (k, n, a, cipher, tag) => if tag == ZERO16 then Some(cipher) else None,
    bytes => 0,
    k => 0)

  type Crypto = p: Primitives | Ideal(p) witness TRIVIAL

  function KindByte(k: Kind): byte { if k.DataKind? then 1 else 2 }

  /** GCM nonce: "CJ", frame type, version, then the counter or attempt nonce. */
  function Nonce(kind: byte, version: byte, counter: u64): seq<byte>
  {
    [67, 74, kind, version] + Be(counter, 8)
  }

  /** A nonce determines the frame type, the version and the counter it was made of. */
  lemma NonceInjective(k1: byte, v1: byte, c1: u64, k2: byte, v2: byte, c2: u64)
    requires Nonce(k1, v1, c1) == Nonce(k2, v2, c2)
    ensures k1 == k2 && v1 == v2 && c1 == c2
  {
    var x, y := Nonce(k1, v1, c1), Nonce(k2, v2, c2);
    assert x[2] == y[2] && x[3] == y[3];
    assert x[4..] == Be(c1, 8) && y[4..] == Be(c2, 8);
    Widths();
    BeInjective(c1, c2, 8);
  }
}
