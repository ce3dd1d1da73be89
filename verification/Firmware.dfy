// Signed firmware updates (cajui_firmware.cpp): consuming the file in chunks of any size is the
// same as checking it whole, and nothing is committed before all of it was verified.
module Firmware {
  import opened Wire
  import opened Protocol

  const SIGNED_HEADER_SIZE := 16
  const SIGNATURE_CAPACITY := 72
  const UPDATE_HEADER_SIZE := 89
  const UPDATE_MAGIC: seq<byte> := [67, 74, 70, 87]
  const UPDATE_FORMAT: byte := 1

  datatype UpdateStatus =
    | Receiving | Installed | BadHeader | WrongRole | Downgrade | TooLarge | Truncated | BadSignature | WriteError

  /** The release key's check, the digest, and what this device accepts. */
  datatype Release = Release(
    digest: seq<byte> -> seq<byte>, verify: (seq<byte>, seq<byte>) -> bool, context: seq<byte>,
    role: byte, running: u32, maxImage: nat)

  // ------------------------------------------------------------------ the whole file at once

  function VersionIn(h: seq<byte>): nat
    requires |h| >= UPDATE_HEADER_SIZE
  {
    Unbe(h[8..12])
  }

  function SizeIn(h: seq<byte>): nat
    requires |h| >= UPDATE_HEADER_SIZE
  {
    Unbe(h[12..16])
  }

  predicate HeaderShaped(h: seq<byte>)
    requires |h| >= UPDATE_HEADER_SIZE
  {
    && h[..4] == UPDATE_MAGIC && h[4] == UPDATE_FORMAT && h[6] == 0 && h[7] == 0
    && 0 < h[16] <= SIGNATURE_CAPACITY
    && forall i | 17 + h[16] as int <= i < UPDATE_HEADER_SIZE :: h[i] == 0
  }

  /** What the header alone decides; Receiving when it is acceptable. */
  function HeaderStatus(r: Release, h: seq<byte>): UpdateStatus
    requires |h| >= UPDATE_HEADER_SIZE
  {
    if !HeaderShaped(h) then BadHeader
    else if h[5] != r.role then WrongRole
    else if r.running != 0 && VersionIn(h) < r.running then Downgrade
    else if SizeIn(h) == 0 || SizeIn(h) > r.maxImage then TooLarge
    else Receiving
  }

  /** The status while the bytes so far are `s`. */
  function StatusOf(r: Release, s: seq<byte>): UpdateStatus
  {
    if |s| < UPDATE_HEADER_SIZE then Receiving
    else if HeaderStatus(r, s) != Receiving then HeaderStatus(r, s)
    else if |s| - UPDATE_HEADER_SIZE > SizeIn(s) then TooLarge
    else Receiving
  }

  /** The signature covers the context, the signed part of the header and the image. */
  predicate Signed(r: Release, s: seq<byte>)
    requires |s| >= UPDATE_HEADER_SIZE && 17 + s[16] as int <= UPDATE_HEADER_SIZE
  {
    r.verify(r.digest(r.context + s[..16] + s[89..]), s[17..17 + s[16] as int])
  }

  /** The final status of the whole file. */
  function Verdict(r: Release, s: seq<byte>): UpdateStatus
  {
    if StatusOf(r, s) != Receiving then StatusOf(r, s)
    else if |s| < UPDATE_HEADER_SIZE || |s| - UPDATE_HEADER_SIZE != SizeIn(s) then Truncated
    else if !Signed(r, s) then BadSignature
    else Installed
  }

  // ------------------------------------------------------------------ which file is told what

  /** What an update file's header says. */
  datatype UpdateHeader = UpdateHeader(role: byte, version: u32, size: u32, signature: seq<byte>)

  predicate CarriesSignature(x: UpdateHeader) { 0 < |x.signature| <= 72 }

  function Zeros(n: nat): (s: seq<byte>)
    ensures |s| == n && forall i | 0 <= i < n :: s[i] == 0
  {
    if n == 0 then [] else [0] + Zeros(n - 1)
  }

  /** The 16 bytes the signature covers: the magic word, the format, the role, the version and the size. */
  function SignedPart(x: UpdateHeader): (s: seq<byte>)
    ensures |s| == 16
  {
    [67, 74, 70, 87, 1, x.role, 0, 0] + Be(x.version, 4) + Be(x.size, 4)
  }

  /** The one header that says it. */
  function Headed(x: UpdateHeader): (s: seq<byte>)
    requires CarriesSignature(x)
    ensures |s| == 89
  {
    SignedPart(x) + [|x.signature|] + x.signature + Zeros(72 - |x.signature|)
  }

  lemma SignedFields(x: UpdateHeader)
    ensures SignedPart(x)[..4] == UPDATE_MAGIC && SignedPart(x)[4] == UPDATE_FORMAT && SignedPart(x)[5] == x.role
    ensures SignedPart(x)[6] == 0 && SignedPart(x)[7] == 0
    ensures Unbe(SignedPart(x)[8..12]) == x.version && Unbe(SignedPart(x)[12..16]) == x.size
  {
    Widths();
    UnbeBe(x.version, 4);
    UnbeBe(x.size, 4);
    assert SignedPart(x)[8..12] == Be(x.version, 4) && SignedPart(x)[12..16] == Be(x.size, 4);
  }

  /** A header reads back as what it says. */
  lemma HeaderReads(x: UpdateHeader, image: seq<byte>)
    requires CarriesSignature(x)
    ensures
      var s := Headed(x) + image;
      && HeaderShaped(s) && s[5] == x.role && VersionIn(s) == x.version && SizeIn(s) == x.size
      && s[..16] == SignedPart(x) && s[16] == |x.signature| && s[17..17 + s[16] as int] == x.signature
      && s[89..] == image
  {
    var s, n := Headed(x) + image, |x.signature|;
    SignedFields(x);
    assert s[..16] == SignedPart(x);
    assert s[..4] == s[..16][..4] && s[8..12] == s[..16][8..12] && s[12..16] == s[..16][12..16];
    assert s[4] == s[..16][4] && s[5] == s[..16][5] && s[6] == s[..16][6] && s[7] == s[..16][7];
    assert s[16] == n && s[17..17 + n] == x.signature;
    forall i | 17 + n <= i < 89 ensures s[i] == 0 {
      assert s[i] == Zeros(72 - n)[i - 17 - n];
    }
  }

  /** A header that is accepted as one is the one that says what is read from it. */
  lemma HeaderCanonical(s: seq<byte>)
    requires |s| >= 89 && HeaderShaped(s)
    ensures exists x: UpdateHeader | CarriesSignature(x) :: s == Headed(x) + s[89..]
  {
    UnbeBound(s[8..12]);
    UnbeBound(s[12..16]);
    Widths();
    BeUnbe(s[8..12]);
    BeUnbe(s[12..16]);
    var n := s[16] as int;
    var x := UpdateHeader(s[5], VersionIn(s), SizeIn(s), s[17..17 + n]);
    assert s[..16] == SignedPart(x) by {
      assert s[..16] == s[..4] + [s[4], s[5], s[6], s[7]] + s[8..12] + s[12..16];
    }
    assert s[17 + n..89] == Zeros(72 - n);
    assert s == s[..16] + [s[16]] + s[17..17 + n] + s[17 + n..89] + s[89..];
    assert CarriesSignature(x) && s == Headed(x) + s[89..];
  }

  /** A well-shaped header this device takes: for its role, no older than what it runs, of a size it can hold. */
  predicate Acceptable(r: Release, x: UpdateHeader)
  {
    x.role == r.role && (r.running == 0 || x.version >= r.running) && 0 < x.size <= r.maxImage
  }

  /** The one status of a whole file, refusal by refusal, for a file with a header and any image. */
  lemma VerdictOf(r: Release, x: UpdateHeader, image: seq<byte>)
    requires CarriesSignature(x)
    ensures
      var v := Verdict(r, Headed(x) + image);
      && (v == WrongRole <==> x.role != r.role)
      && (v == Downgrade <==> x.role == r.role && r.running != 0 && x.version < r.running)
      && (v == TooLarge <==>
            && x.role == r.role && (r.running == 0 || x.version >= r.running)
            && (x.size == 0 || x.size > r.maxImage || |image| > x.size))
      && (v == Truncated <==> Acceptable(r, x) && |image| < x.size)
      && (v == BadSignature <==>
            && Acceptable(r, x) && |image| == x.size
            && !r.verify(r.digest(r.context + SignedPart(x) + image), x.signature))
      && (v == Installed <==>
            && Acceptable(r, x) && |image| == x.size
            && r.verify(r.digest(r.context + SignedPart(x) + image), x.signature))
      && v != BadHeader && v != WriteError && v != Receiving
  {
    HeaderReads(x, image);
    hide HeaderShaped, VersionIn, SizeIn, Headed;
  }

  /** Any other file is cut short within its header or has none. */
  lemma VerdictOther(r: Release, s: seq<byte>)
    ensures |s| < 89 ==> Verdict(r, s) == Truncated
    ensures |s| >= 89 ==>
      (Verdict(r, s) == BadHeader <==>
       forall x: UpdateHeader | CarriesSignature(x) :: s != Headed(x) + s[89..])
  {
    if |s| >= 89 {
      if HeaderShaped(s) {
        HeaderCanonical(s);
        var x: UpdateHeader :| CarriesSignature(x) && s == Headed(x) + s[89..];
        VerdictOf(r, x, s[89..]);
      } else {
        forall x: UpdateHeader | CarriesSignature(x) ensures s != Headed(x) + s[89..] {
          HeaderReads(x, s[89..]);
        }
      }
    }
  }

  /** What is refused is refused as soon as the bytes so far decide it; all other files are received on. */
  lemma StatusSoFar(r: Release, s: seq<byte>)
    ensures StatusOf(r, s) == match Verdict(r, s)
                              case Truncated => Receiving
                              case BadSignature => Receiving
                              case Installed => Receiving
                              case v => v
  {
  }

  /** Installed means every check holds, and nothing else does. */
  lemma InstalledIff(r: Release, s: seq<byte>)
    ensures Verdict(r, s) == Installed <==>
      && |s| >= UPDATE_HEADER_SIZE && HeaderShaped(s) && s[5] == r.role
      && (r.running == 0 || VersionIn(s) >= r.running)
      && 0 < SizeIn(s) <= r.maxImage && |s| == UPDATE_HEADER_SIZE + SizeIn(s) && Signed(r, s)
  {
  }

  /** The header alone never says that a file is installed, cut short or wrongly signed. */
  lemma HeaderIsFinal(r: Release, h: seq<byte>)
    requires |h| >= UPDATE_HEADER_SIZE
    ensures HeaderStatus(r, h) != Installed && HeaderStatus(r, h) != Truncated && HeaderStatus(r, h) != BadSignature
    ensures HeaderStatus(r, h) != WriteError
  {
  }

  /** A status other than Receiving never changes as more bytes arrive. */
  lemma StatusStays(r: Release, s: seq<byte>, more: seq<byte>)
    requires StatusOf(r, s) != Receiving
    ensures StatusOf(r, s + more) == StatusOf(r, s)
  {
    SameHeader(r, s, more);
  }

  lemma SameHeader(r: Release, s: seq<byte>, more: seq<byte>)
    requires |s| >= UPDATE_HEADER_SIZE
    ensures HeaderStatus(r, s + more) == HeaderStatus(r, s) && SizeIn(s + more) == SizeIn(s)
  {
    var t := s + more;
    assert t[..4] == s[..4] && t[8..12] == s[8..12] && t[12..16] == s[12..16];
    assert forall i | 0 <= i < UPDATE_HEADER_SIZE :: t[i] == s[i];
  }

  // ------------------------------------------------------------------ the sink

  /** Where the image goes; any call but the abort may be refused. */
  class ImageSink {
    ghost var refused: bool
    var begun: bool
    var ended: bool
    var committed: bool
    var image: seq<byte>

    constructor ()
      ensures !refused && !begun && !ended && !committed && image == []
    {
      refused, begun, ended, committed, image := false, false, false, false, [];
    }

    method Begin(size: nat) returns (ok: bool)
      requires !begun
      modifies this
      ensures refused == (old(refused) || !ok) && begun == ok && !ended && !committed && image == []
    {
      ok := *;
      refused := refused || !ok;
      begun, ended, committed, image := ok, false, false, [];
    }

    method Write(data: seq<byte>) returns (ok: bool)
      requires begun && !ended
      modifies this`image, this`refused
      ensures refused == (old(refused) || !ok) && image == if ok then old(image) + data else old(image)
    {
      ok := *;
      refused := refused || !ok;
      if ok {
        image := image + data;
      }
    }

    method Commit() returns (ok: bool)
      requires begun && !ended
      modifies this`ended, this`committed, this`refused
      ensures refused == (old(refused) || !ok) && committed == ok && ended == ok
    {
      ok := *;
      refused := refused || !ok;
      committed, ended := ok, ok;
    }

    method Abort()
      requires begun && !ended
      modifies this`ended
      ensures ended
    {
      ended := true;
    }
  }

  // ------------------------------------------------------------------ chunk by chunk

  class UpdateReceiver {
    const sink: ImageSink
    const release: Release
    const header: array<byte>
    var headerUsed: nat
    var imageSize: nat
    var written: nat
    var version: nat
    /** What the digest was fed. */
    var hashed: seq<byte>
    var status: UpdateStatus
    /** Every byte fed; not stored. */
    ghost var fed: seq<byte>

    /** An open receiver holds the header in its buffer and the image in the sink, byte for byte. */
    ghost predicate Open()
      requires header.Length == UPDATE_HEADER_SIZE
      reads this, header, sink
    {
      && headerUsed <= |fed| && headerUsed <= UPDATE_HEADER_SIZE && header[..headerUsed] == fed[..headerUsed]
      && (headerUsed < UPDATE_HEADER_SIZE ==> |fed| == headerUsed && hashed == [] && !sink.begun && written == 0)
      && (headerUsed == UPDATE_HEADER_SIZE ==>
            && HeaderStatus(release, fed) == Receiving && imageSize == SizeIn(fed)
            && |fed| == UPDATE_HEADER_SIZE + written && written <= imageSize
            && sink.begun && !sink.ended && sink.image == fed[UPDATE_HEADER_SIZE..]
            && hashed == release.context + fed[..SIGNED_HEADER_SIZE] + fed[UPDATE_HEADER_SIZE..])
    }

    /** The status is the batch status of the bytes so far, unless the sink refused a call: then it is WriteError. */
    ghost predicate Valid()
      reads this, header, sink
    {
      && header.Length == UPDATE_HEADER_SIZE
      && (status.Receiving? ==> Open() && !sink.committed)
      && (sink.begun && !status.Receiving? ==> sink.ended)
      && (sink.committed <==> status.Installed?)
      && (status.WriteError? <==> sink.refused)
      && (!status.Installed? && !status.WriteError? && !status.Truncated? && !status.BadSignature? ==>
          status == StatusOf(release, fed))
      && (status.Installed? || status.BadSignature? ==> Verdict(release, fed) == status)
    }

    constructor (s: ImageSink, r: Release)
      requires !s.begun && !s.committed && !s.refused
      ensures Valid() && status == Receiving && fed == [] && sink == s && release == r
      ensures fresh(header)
    {
      sink, release := s, r;
      header := new byte[UPDATE_HEADER_SIZE](i => 0);
      headerUsed, imageSize, written, version, hashed, status, fed := 0, 0, 0, 0, [], Receiving, [];
    }

    /** `fail`: a begun sink is aborted. */
    method Fail(why: UpdateStatus)
      requires status.Receiving? && (headerUsed == UPDATE_HEADER_SIZE ==> sink.begun && !sink.ended)
      modifies this`status, sink`ended
      ensures status == why
      ensures sink.ended == (if headerUsed == UPDATE_HEADER_SIZE then true else old(sink.ended))
    {
      if headerUsed == UPDATE_HEADER_SIZE {
        sink.Abort();
      }
      status := why;
    }

    /** The padding after the signature is zero. */
    method Padded(from: nat) returns (ok: bool)
      requires header.Length == UPDATE_HEADER_SIZE && from <= UPDATE_HEADER_SIZE
      ensures ok <==> forall i | from <= i < UPDATE_HEADER_SIZE :: header[i] == 0
    {
      for i := from to UPDATE_HEADER_SIZE
        invariant forall j | from <= j < i :: header[j] == 0
      {
        if header[i] != 0 {
          return false;
        }
      }
      return true;
    }

    /** `parseHeader`, once the buffer is full. */
    method ParseHeader()
      requires header.Length == UPDATE_HEADER_SIZE && status.Receiving? && headerUsed == UPDATE_HEADER_SIZE
      requires header[..] == fed && hashed == [] && !sink.begun && !sink.committed && written == 0 && !sink.refused
      modifies this`status, this`version, this`imageSize, this`hashed, sink
      ensures if sink.refused then status == WriteError && HeaderStatus(release, fed) == Receiving
              else status == HeaderStatus(release, fed)
      ensures sink.begun <==> status.Receiving?
      ensures !sink.committed
      ensures status.Receiving? ==>
        && imageSize == SizeIn(fed) && !sink.ended && sink.image == []
        && hashed == release.context + fed[..SIGNED_HEADER_SIZE]
    {
      var h := header[..];
      var signature := h[16];
      if h[..4] != UPDATE_MAGIC || h[4] != UPDATE_FORMAT || h[6] != 0 || h[7] != 0 || signature == 0
         || signature > SIGNATURE_CAPACITY {
        status := BadHeader;
        return;
      }
      var padded := Padded(17 + signature as int);
      if !padded {
        status := BadHeader;
        return;
      }
      if h[5] != release.role {
        status := WrongRole;
        return;
      }
      version := Get(h, 8, 4);
      imageSize := Get(h, 12, 4);
      if release.running != 0 && version < release.running {
        status := Downgrade;
        return;
      }
      if imageSize == 0 || imageSize > release.maxImage {
        status := TooLarge;
        return;
      }
      hashed := release.context + h[..SIGNED_HEADER_SIZE];
      var ok := sink.Begin(imageSize);
      if !ok {
        status := WriteError;
      }
    }

    /** Moves bytes into the header buffer until it is full; how many it took. */
    method FeedHeader(data: seq<byte>) returns (used: nat)
      requires Valid() && status.Receiving?
      modifies this`headerUsed, this`status, this`version, this`imageSize, this`hashed, this`fed, header, sink
      ensures used <= |data| && fed == old(fed) + data[..used] && header.Length == UPDATE_HEADER_SIZE
      ensures Valid()
      ensures status.Receiving? ==> used == |data| || headerUsed == UPDATE_HEADER_SIZE
      ensures status == if sink.refused then WriteError else StatusOf(release, fed)
    {
      hide HeaderStatus, Verdict;
      used := 0;
      while used < |data| && headerUsed < UPDATE_HEADER_SIZE
        invariant used <= |data| && fed == old(fed) + data[..used]
        invariant Valid() && status.Receiving?
      {
        TakeByte(data[used]);
        used := used + 1;
        if !status.Receiving? {
          return;
        }
      }
    }

    /** One byte of the header; the last one has it parsed. */
    method TakeByte(b: byte)
      requires Valid() && status.Receiving? && headerUsed < UPDATE_HEADER_SIZE
      modifies this`headerUsed, this`status, this`version, this`imageSize, this`hashed, this`fed, header, sink
      ensures Valid() && fed == old(fed) + [b]
      ensures status == if sink.refused then WriteError else StatusOf(release, fed)
    {
      hide HeaderStatus, Verdict, SizeIn;
      ghost var before := fed;
      header[headerUsed] := b;
      assert header[..headerUsed] == before;
      fed := fed + [b];
      headerUsed := headerUsed + 1;
      assert header[..headerUsed] == fed;
      if headerUsed == UPDATE_HEADER_SIZE {
        assert header[..] == fed;
        HeaderIsFinal(release, fed);
        ParseHeader();
      }
    }

    /** One chunk of any size. */
    method Feed(data: seq<byte>)
      requires Valid()
      modifies this, header, sink
      ensures Valid()
      ensures !old(status).Receiving? ==> status == old(status) && fed == old(fed)
      ensures old(status).Receiving? ==> fed == old(fed) + data || !status.Receiving?
      ensures old(status).Receiving? ==>
        status == if sink.refused then WriteError else StatusOf(release, old(fed) + data)
    {
      if !status.Receiving? {
        return;
      }
      ghost var whole := fed + data;
      var used := FeedHeader(data);
      var rest := data[used..];
      assert whole == fed + rest;
      if !status.Receiving? {
        StaysAfter(release, fed, rest, status, sink.refused);
        return;
      }
      if rest == [] {
        return;
      }
      FeedImage(rest);
    }

    /** The image part of a chunk. */
    method FeedImage(data: seq<byte>)
      requires Valid() && status.Receiving? && headerUsed == UPDATE_HEADER_SIZE && data != []
      modifies this`status, this`written, this`hashed, this`fed, sink
      ensures Valid() && fed == old(fed) + data
      ensures status == if sink.refused then WriteError else StatusOf(release, fed)
    {
      ghost var before := fed;
      SameHeader(release, fed, data);
      fed := fed + data;
      if |data| > imageSize - written {
        Fail(TooLarge);
        return;
      }
      hashed := hashed + data;
      assert fed[..SIGNED_HEADER_SIZE] == before[..SIGNED_HEADER_SIZE];
      assert fed[UPDATE_HEADER_SIZE..] == before[UPDATE_HEADER_SIZE..] + data;
      assert fed[..UPDATE_HEADER_SIZE] == before[..UPDATE_HEADER_SIZE];
      var ok := sink.Write(data);
      if !ok {
        Fail(WriteError);
        return;
      }
      written := written + |data|;
    }

    /** All bytes were delivered: verify and commit. */
    method Finish()
      requires Valid()
      modifies this`status, sink
      ensures Valid() && !status.Receiving?
      ensures !old(status).Receiving? ==> status == old(status)
      ensures old(status).Receiving? ==> status == if sink.refused then WriteError else Verdict(release, fed)
      ensures status.Installed? && !old(status).Installed? ==>
        Verdict(release, fed) == Installed && sink.committed && sink.image == fed[UPDATE_HEADER_SIZE..]
    {
      if !status.Receiving? {
        return;
      }
      if headerUsed < UPDATE_HEADER_SIZE || written != imageSize {
        Fail(Truncated);
        return;
      }
      var h := header[..];
      assert h == fed[..UPDATE_HEADER_SIZE];
      assert h[17..17 + h[16] as int] == fed[17..17 + fed[16] as int];
      if !release.verify(release.digest(hashed), h[17..17 + h[16] as int]) {
        Fail(BadSignature);
        return;
      }
      var ok := sink.Commit();
      if !ok {
        Fail(WriteError);
        return;
      }
      status := Installed;
    }

    /** The transfer stopped. */
    method Cancel()
      requires Valid()
      modifies this`status, sink`ended
      ensures Valid() && !status.Receiving? && (!old(status).Receiving? ==> status == old(status))
    {
      if status.Receiving? {
        Fail(Truncated);
      }
    }
  }

  lemma StaysAfter(r: Release, s: seq<byte>, more: seq<byte>, status: UpdateStatus, refused: bool)
    requires status == if refused then WriteError else StatusOf(r, s)
    requires status != Receiving
    ensures !refused ==> StatusOf(r, s + more) == status
  {
    if !refused {
      StatusStays(r, s, more);
    }
  }

  /** Feeding a file in any chunks, then finishing, is checking the file whole. */
  method Receive(u: UpdateReceiver, chunks: seq<seq<byte>>)
    requires u.Valid() && u.status == Receiving && u.fed == []
    modifies u, u.header, u.sink
    ensures u.status == if u.sink.refused then WriteError else Verdict(u.release, Joined(chunks))
    ensures u.sink.committed <==> u.status.Installed?
  {
    for i := 0 to |chunks|
      invariant u.Valid()
      invariant u.status == if u.sink.refused then WriteError else StatusOf(u.release, Joined(chunks[..i]))
      invariant u.status.Receiving? ==> u.fed == Joined(chunks[..i])
    {
      JoinedNext(chunks, i);
      if !u.status.Receiving? && !u.sink.refused {
        StatusStays(u.release, Joined(chunks[..i]), chunks[i]);
      }
      u.Feed(chunks[i]);
    }
    assert chunks[..|chunks|] == chunks;
    u.Finish();
  }

  function Joined(chunks: seq<seq<byte>>): seq<byte>
  {
    if chunks == [] then [] else Joined(chunks[..|chunks| - 1]) + chunks[|chunks| - 1]
  }

  lemma JoinedNext(chunks: seq<seq<byte>>, i: nat)
    requires i < |chunks|
    ensures Joined(chunks[..i + 1]) == Joined(chunks[..i]) + chunks[i]
  {
    assert chunks[..i + 1][..i] == chunks[..i];
  }
}
