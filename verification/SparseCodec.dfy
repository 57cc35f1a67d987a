/** The sparse-extent snapshot format (internal/snapshotstore/sparsezstd.go). */
module SparseCodec {
  import opened Types
  import opened Bytes

  /** "ATESPRSE". */
  const MAGIC: seq<byte> := [0x41, 0x54, 0x45, 0x53, 0x50, 0x52, 0x53, 0x45]
  const VERSION: nat := 2
  const END: int := -1

  /** What a decompressor delivers: bytes, and whether it then ends cleanly or with an error. */
  datatype Stream = Stream(bytes: seq<byte>, clean: bool)

  datatype Zstd = Zstd(encode: seq<byte> -> seq<byte>, decode: seq<byte> -> Stream)

  /** The magic number of a Zstandard frame, section 3.1.1 of RFC 8878. */
  const FRAME_MAGIC: seq<byte> := [0x28, 0xB5, 0x2F, 0xFD]

  ghost predicate Lossless(z: Zstd) {
    forall p :: z.decode(z.encode(p)) == Stream(p, true) && (z.encode(p) == [] || FRAME_MAGIC <= z.encode(p))
  }

  // ----- files with holes -----

  /** A file as the kernel reports it: its bytes, and which of them lie in data regions. */
  datatype SparseFile = SparseFile(bytes: seq<byte>, isData: seq<bool>)

  ghost predicate HolesAreZero(f: SparseFile) {
    && |f.bytes| == |f.isData| < TWO_63
    && forall i :: 0 <= i < |f.bytes| && !f.isData[i] ==> f.bytes[i] == 0
  }

  /** SEEK_DATA: the first data byte from `off` on; none is ENXIO. */
  function SeekData(f: SparseFile, off: nat): (r: Option<nat>)
    requires off <= |f.isData|
    ensures r.Some? ==> off <= r.value < |f.isData| && f.isData[r.value]
    ensures r.Some? ==> forall i :: off <= i < r.value ==> !f.isData[i]
    ensures r.None? ==> forall i :: off <= i < |f.isData| ==> !f.isData[i]
    decreases |f.isData| - off
  {
    if off == |f.isData| then None else if f.isData[off] then Some(off) else SeekData(f, off + 1)
  }

  /** SEEK_HOLE: the first hole from `off` on, the end of the file counting as one. */
  function SeekHole(f: SparseFile, off: nat): (e: nat)
    requires off <= |f.isData|
    ensures off <= e <= |f.isData| && (off < |f.isData| && f.isData[off] ==> off < e)
    ensures forall i :: off <= i < e ==> f.isData[i]
    decreases |f.isData| - off
  {
    if off == |f.isData| || !f.isData[off] then off else SeekHole(f, off + 1)
  }

  datatype Extent = Extent(off: nat, data: seq<byte>)

  /** The data regions from `off` on. */
  function DataExtents(f: SparseFile, off: nat): seq<Extent>
    requires off <= |f.isData| == |f.bytes|
    decreases |f.bytes| - off
  {
    match SeekData(f, off)
    case None => []
    case Some(ds) =>
      var de := SeekHole(f, ds);
      [Extent(ds, f.bytes[ds..de])] + DataExtents(f, de)
  }

  // ----- the stream inside the compression -----

  predicate InRange(e: Extent, size: nat) {
    e.off + |e.data| <= size
  }

  function ExtentBytes(e: Extent): seq<byte> {
    Int64(e.off) + Int64(|e.data|) + e.data
  }

  function Body(exts: seq<Extent>): seq<byte>
    decreases |exts|
  {
    if exts == [] then [] else ExtentBytes(exts[0]) + Body(exts[1..])
  }

  function Payload(size: nat, exts: seq<Extent>): seq<byte> {
    Int64(size) + Body(exts) + Int64(END)
  }

  /** The range check of the decoder, whose one subtraction stays within int64. */
  predicate RangeOk(off: int, length: int, size: nat) {
    !(off < 0 || length < 0 || off > size || length > size - off)
  }

  lemma RangeCheckIsExact(off: int, length: int, size: nat)
    requires FitsInt64(off) && FitsInt64(length) && size < TWO_63
    ensures RangeOk(off, length, size) <==> 0 <= off && 0 <= length && off + length <= size
    ensures 0 <= off <= size ==> FitsInt64(size - off)
  {
  }

  /** So it is for whatever eight bytes the stream has for the size, the offset and the length. */
  lemma RangeCheckFits(size: seq<byte>, off: seq<byte>, length: seq<byte>)
    requires |size| == 8 && |off| == 8 && |length| == 8 && FromInt64(size) >= 0
    ensures RangeOk(FromInt64(off), FromInt64(length), FromInt64(size)) <==>
            0 <= FromInt64(off) && 0 <= FromInt64(length) && FromInt64(off) + FromInt64(length) <= FromInt64(size)
    ensures 0 <= FromInt64(off) <= FromInt64(size) ==> FitsInt64(FromInt64(size) - FromInt64(off))
  {
    FromInt64Fits(size);
    FromInt64Fits(off);
    FromInt64Fits(length);
    RangeCheckIsExact(FromInt64(off), FromInt64(length), FromInt64(size));
  }

  /** The extents up to the sentinel, if the bytes spell them out; what follows the sentinel is not read. */
  function ParseBody(rest: seq<byte>, size: nat): Option<seq<Extent>>
    decreases |rest|
  {
    if |rest| < 8 then None
    else
      var off := FromInt64(rest[..8]);
      if off == END then Some([])
      else if |rest| < 16 then None
      else
        var length := FromInt64(rest[8..16]);
        if !RangeOk(off, length, size) || |rest| < 16 + length then None
        else
          After([Extent(off, rest[16..16 + length])], ParseBody(rest[16 + length..], size))
  }

  function After(exts: seq<Extent>, more: Option<seq<Extent>>): Option<seq<Extent>> {
    if more.None? then None else Some(exts + more.value)
  }

  lemma AfterAfter(a: seq<Extent>, b: seq<Extent>, more: Option<seq<Extent>>)
    ensures After(a, After(b, more)) == After(a + b, more) && After([], more) == more && After(a, Some([])) == Some(a)
  {
    if more.Some? {
      assert a + (b + more.value) == a + b + more.value && [] + more.value == more.value;
    }
    assert a + [] == a;
  }

  datatype Content = Content(size: nat, exts: seq<Extent>)

  function ParsePayload(plain: seq<byte>): Option<Content> {
    if |plain| < 8 || FromInt64(plain[..8]) < 0 then None
    else
      var size: nat := FromInt64(plain[..8]);
      match ParseBody(plain[8..], size)
      case None => None
      case Some(exts) => Some(Content(size, exts))
  }

  /** After the magic: the version, then a compressed payload. */
  function ParseSparse(src: seq<byte>, z: Zstd): Option<Content> {
    if |src| < 4 || FromLittleEndian(src[..4]) != VERSION then None else ParsePayload(z.decode(src[4..]).bytes)
  }

  /** Writing the extents one after another: later ones win. */
  function Overlay(base: seq<byte>, exts: seq<Extent>): seq<byte>
    decreases |exts|
  {
    if exts == [] then base else Overlay(Written(base, exts[0].off, exts[0].data), exts[1..])
  }

  // ----- round trip -----

  /** The extents ascend from `off`, hold the file's own bytes, and leave out only zeros. */
  predicate Covers(bytes: seq<byte>, exts: seq<Extent>, off: nat)
    decreases |exts|
  {
    if exts == [] then forall i :: off <= i < |bytes| ==> bytes[i] == 0
    else
      var e := exts[0];
      && off <= e.off && e.off + |e.data| <= |bytes|
      && (forall i :: off <= i < e.off ==> bytes[i] == 0)
      && e.data == bytes[e.off..e.off + |e.data|]
      && Covers(bytes, exts[1..], e.off + |e.data|)
  }

  lemma {:induction false} DataExtentsCover(f: SparseFile, off: nat)
    requires HolesAreZero(f) && off <= |f.bytes|
    ensures Covers(f.bytes, DataExtents(f, off), off)
    decreases |f.bytes| - off
  {
    match SeekData(f, off)
    case None =>
    case Some(ds) =>
      var de := SeekHole(f, ds);
      DataExtentsCover(f, de);
      assert DataExtents(f, off)[1..] == DataExtents(f, de);
  }

  predicate Inside(exts: seq<Extent>, i: nat)
    decreases |exts|
  {
    exts != [] && (exts[0].off <= i < exts[0].off + |exts[0].data| || Inside(exts[1..], i))
  }

  /** The extents hold the data regions and no more: holes are not written, however long. */
  lemma {:induction false} DataExtentsExact(f: SparseFile, off: nat, i: nat)
    requires HolesAreZero(f) && off <= i < |f.bytes|
    ensures Inside(DataExtents(f, off), i) <==> f.isData[i]
    decreases |f.bytes| - off
  {
    match SeekData(f, off)
    case None =>
    case Some(ds) =>
      var de := SeekHole(f, ds);
      assert DataExtents(f, off)[1..] == DataExtents(f, de);
      if i >= de {
        DataExtentsExact(f, de, i);
      } else {
        NotBefore(f, de, i);
      }
  }

  lemma {:induction false} NotBefore(f: SparseFile, off: nat, i: nat)
    requires HolesAreZero(f) && i < off <= |f.bytes|
    ensures !Inside(DataExtents(f, off), i)
    decreases |f.bytes| - off
  {
    match SeekData(f, off)
    case None =>
    case Some(ds) =>
      var de := SeekHole(f, ds);
      assert DataExtents(f, off)[1..] == DataExtents(f, de);
      NotBefore(f, de, i);
  }

  lemma {:induction false} CoversInRange(bytes: seq<byte>, exts: seq<Extent>, off: nat)
    requires Covers(bytes, exts, off)
    ensures forall i :: 0 <= i < |exts| ==> InRange(exts[i], |bytes|)
    decreases |exts|
  {
    if exts != [] {
      CoversInRange(bytes, exts[1..], exts[0].off + |exts[0].data|);
      assert forall i :: 1 <= i < |exts| ==> exts[i] == exts[1..][i - 1];
    }
  }

  /** Laid over zeros, a covering list of extents gives the file back. */
  lemma {:induction false} OverlayRebuilds(bytes: seq<byte>, exts: seq<Extent>, base: seq<byte>, off: nat)
    requires Covers(bytes, exts, off) && |base| == |bytes|
    requires forall i :: 0 <= i < |bytes| ==> base[i] == if i < off then bytes[i] else 0
    ensures Overlay(base, exts) == bytes
    decreases |exts|
  {
    if exts == [] {
      assert base == bytes;
    } else {
      var e := exts[0];
      OverlayRebuilds(bytes, exts[1..], Written(base, e.off, e.data), e.off + |e.data|);
    }
  }

  lemma ParseExtent(e: Extent, tail: seq<byte>, size: nat)
    requires size < TWO_63 && InRange(e, size)
    ensures ParseBody(ExtentBytes(e) + tail, size) == After([e], ParseBody(tail, size))
  {
    var rest := ExtentBytes(e) + tail;
    Int64RoundTrip(e.off);
    Int64RoundTrip(|e.data|);
    assert rest[..8] == Int64(e.off);
    assert rest[8..16] == Int64(|e.data|);
    assert rest[16..16 + |e.data|] == e.data;
    assert rest[16 + |e.data|..] == tail;
  }

  lemma Joined(a: seq<byte>, b: seq<byte>, c: seq<byte>)
    ensures a + (b + c) == a + b + c
  {
  }

  lemma Split(a: seq<byte>, b: seq<byte>)
    ensures (a + b)[..|a|] == a && (a + b)[|a|..] == b
  {
  }

  /** Whatever the list of in-range extents, the parser reads back what was printed. */
  lemma {:induction false} ParseBodyRoundTrip(exts: seq<Extent>, junk: seq<byte>, size: nat)
    requires size < TWO_63 && forall i :: 0 <= i < |exts| ==> InRange(exts[i], size)
    ensures ParseBody(Body(exts) + Int64(END) + junk, size) == Some(exts)
    decreases |exts|
  {
    var rest := Body(exts) + Int64(END) + junk;
    if exts == [] {
      Int64RoundTrip(END);
      assert rest[..8] == Int64(END);
    } else {
      var head, tail := ExtentBytes(exts[0]), Body(exts[1..]) + Int64(END) + junk;
      assert forall i :: 0 <= i < |exts[1..]| ==> exts[1..][i] == exts[i + 1];
      ParseBodyRoundTrip(exts[1..], junk, size);
      Joined(head, Body(exts[1..]), Int64(END));
      Joined(head, Body(exts[1..]) + Int64(END), junk);
      ParseExtent(exts[0], tail, size);
      assert [exts[0]] + exts[1..] == exts;
    }
  }

  lemma PayloadRoundTrip(size: nat, exts: seq<Extent>)
    requires size < TWO_63 && forall i :: 0 <= i < |exts| ==> InRange(exts[i], size)
    ensures ParsePayload(Payload(size, exts)) == Some(Content(size, exts))
  {
    var body := Body(exts) + Int64(END);
    Int64RoundTrip(size);
    Joined(Int64(size), Body(exts), Int64(END));
    Split(Int64(size), body);
    ParseBodyRoundTrip(exts, [], size);
    assert body + [] == body;
  }

  /** The bytes the encoder writes for a file and a decomposition into extents. */
  function SparseBytes(size: nat, exts: seq<Extent>, z: Zstd): seq<byte> {
    MAGIC + LittleEndian(VERSION, 4) + z.encode(Payload(size, exts))
  }

  /** Sparse round trip: for every file and every ascending decomposition whose holes read as zero, decoding
      into an empty file gives the same bytes and length. */
  lemma SparseRoundTrip(bytes: seq<byte>, exts: seq<Extent>, z: Zstd)
    requires |bytes| < TWO_63 && Covers(bytes, exts, 0) && Lossless(z)
    ensures forall i :: 0 <= i < |exts| ==> InRange(exts[i], |bytes|)
    ensures var src := SparseBytes(|bytes|, exts, z);
            && MAGIC <= src
            && ParseSparse(src[8..], z) == Some(Content(|bytes|, exts))
            && Overlay(Resized([], |bytes|), exts) == bytes
  {
    CoversInRange(bytes, exts, 0);
    var src := SparseBytes(|bytes|, exts, z);
    var packed := z.encode(Payload(|bytes|, exts));
    Joined(MAGIC, LittleEndian(VERSION, 4), packed);
    Split(MAGIC, LittleEndian(VERSION, 4) + packed);
    VersionRead(packed, z);
    PayloadRoundTrip(|bytes|, exts);
    OverlayRebuilds(bytes, exts, Resized([], |bytes|), 0);
  }

  lemma VersionRead(packed: seq<byte>, z: Zstd)
    ensures ParseSparse(LittleEndian(VERSION, 4) + packed, z) == ParsePayload(z.decode(packed).bytes)
  {
    Split(LittleEndian(VERSION, 4), packed);
    Pow256Values();
    LittleEndianRoundTrip(VERSION, 4);
  }

  // ----- the bytes on the wire -----

  lemma VersionBytes(s: seq<byte>)
    requires |s| == 4
    ensures FromLittleEndian(s) == VERSION <==> s == [2, 0, 0, 0]
  {
    DigitsRoundTrip(s);
    assert LittleEndian(2, 4) == [2, 0, 0, 0] by {
      assert LittleEndian(2, 4) == [2] + ([0] + ([0] + ([0] + [])));
    }
    Pow256Values();
    LittleEndianRoundTrip(2, 4);
  }

  /** The twelve bytes in front: "ATESPRSE" and the version, low byte first. */
  lemma HeaderBytes(size: nat, exts: seq<Extent>, z: Zstd)
    ensures var out := SparseBytes(size, exts, z);
            && |out| >= 12 && out[..12] == [0x41, 0x54, 0x45, 0x53, 0x50, 0x52, 0x53, 0x45, 2, 0, 0, 0]
            && out[12..] == z.encode(Payload(size, exts))
  {
    DigitsRoundTrip([2, 0, 0, 0]);
    VersionBytes([2, 0, 0, 0]);
    assert LittleEndian(VERSION, 4) == [2, 0, 0, 0];
  }

  /** These eight bytes hold this number, low byte first. */
  predicate Holds(s: seq<byte>, at: nat, n: nat) {
    at + 8 <= |s| && forall i :: 0 <= i < 8 ==> Pow256(i) > 0 && s[at + i] == n / Pow256(i) % 256
  }

  predicate EndsInOnes(s: seq<byte>) {
    |s| >= 8 && forall i :: |s| - 8 <= i < |s| ==> s[i] == 0xFF
  }

  /** What is compressed: the size, the extents, and eight bytes of ones. */
  lemma PayloadBytes(size: nat, exts: seq<Extent>)
    requires size < TWO_63
    ensures Holds(Payload(size, exts), 0, size) && EndsInOnes(Payload(size, exts))
    ensures |Payload(size, exts)| == 16 + |Body(exts)| && Payload(size, exts)[8..8 + |Body(exts)|] == Body(exts)
  {
    Int64Bytes(size);
    Int64Bytes(END);
    var plain := Payload(size, exts);
    forall i | 0 <= i < 8
      ensures Pow256(i) > 0 && plain[0 + i] == size / Pow256(i) % 256
    {
      assert plain[i] == Int64(size)[i];
    }
  }

  /** An extent: its offset, its length, its data. */
  lemma ExtentLayout(e: Extent)
    requires e.off < TWO_63 && |e.data| < TWO_63
    ensures Holds(ExtentBytes(e), 0, e.off) && Holds(ExtentBytes(e), 8, |e.data|)
    ensures |ExtentBytes(e)| == 16 + |e.data| && ExtentBytes(e)[16..] == e.data
  {
    Int64Bytes(e.off);
    Int64Bytes(|e.data|);
    var s := ExtentBytes(e);
    forall i | 0 <= i < 8
      ensures Pow256(i) > 0 && s[0 + i] == e.off / Pow256(i) % 256 && s[8 + i] == |e.data| / Pow256(i) % 256
    {
      assert s[i] == Int64(e.off)[i] && s[8 + i] == Int64(|e.data|)[i];
    }
  }

  /** What the parser accepts is something that was, or could have been, printed: the extents as printed, and then the
      sentinel. */
  lemma {:induction false} ParsedIsPrinted(rest: seq<byte>, size: nat)
    requires ParseBody(rest, size).Some?
    ensures Body(ParseBody(rest, size).value) + Int64(END) <= rest
    decreases |rest|
  {
    Int64Digits(rest[..8]);
    if FromInt64(rest[..8]) == END {
      assert [] + Int64(END) == Int64(END);
    } else {
      var length := FromInt64(rest[8..16]);
      Int64Digits(rest[8..16]);
      var e, more := Extent(FromInt64(rest[..8]), rest[16..16 + length]), rest[16 + length..];
      ParsedIsPrinted(more, size);
      var exts := ParseBody(more, size).value;
      assert ([e] + exts)[1..] == exts;
      Joined(ExtentBytes(e), Body(exts), Int64(END));
      ThreeParts(rest, length);
      StartsAlike(ExtentBytes(e), Body(exts) + Int64(END), more);
    }
  }

  lemma ThreeParts(s: seq<byte>, length: nat)
    requires 16 + length <= |s|
    ensures s == s[..8] + s[8..16] + s[16..16 + length] + s[16 + length..]
  {
  }

  lemma StartsAlike(head: seq<byte>, a: seq<byte>, b: seq<byte>)
    requires a <= b
    ensures head + a <= head + b
  {
    assert head + b == (head + a) + b[|a|..];
  }

  // ----- what any accepted stream decodes to -----

  lemma {:induction false} ParsedInRange(rest: seq<byte>, size: nat)
    requires ParseBody(rest, size).Some?
    ensures forall i :: 0 <= i < |ParseBody(rest, size).value| ==> InRange(ParseBody(rest, size).value[i], size)
    decreases |rest|
  {
    if FromInt64(rest[..8]) != END {
      var length := FromInt64(rest[8..16]);
      ParsedInRange(rest[16 + length..], size);
    }
  }

  /** The byte at `i` after writing the extents: the last one that covers it, else the base. */
  function ByteAt(base: seq<byte>, exts: seq<Extent>, i: nat): byte
    requires i < |base|
    decreases |exts|
  {
    if exts == [] then base[i]
    else
      var last := exts[|exts| - 1];
      if last.off <= i < last.off + |last.data| then last.data[i - last.off]
      else ByteAt(base, exts[..|exts| - 1], i)
  }

  lemma {:induction false} OverlayLast(base: seq<byte>, exts: seq<Extent>, e: Extent)
    ensures Overlay(base, exts + [e]) == Written(Overlay(base, exts), e.off, e.data)
    decreases |exts|
  {
    if exts == [] {
      assert [e][1..] == [];
    } else {
      OverlayLast(Written(base, exts[0].off, exts[0].data), exts[1..], e);
      assert (exts + [e])[1..] == exts[1..] + [e];
    }
  }

  /** In-range extents never change the length, and each byte comes from the last extent covering it. */
  lemma {:induction false} OverlayBytes(base: seq<byte>, exts: seq<Extent>)
    requires forall i :: 0 <= i < |exts| ==> InRange(exts[i], |base|)
    ensures |Overlay(base, exts)| == |base|
    ensures forall i :: 0 <= i < |base| ==> Overlay(base, exts)[i] == ByteAt(base, exts, i)
    decreases |exts|
  {
    if exts != [] {
      var front, last := exts[..|exts| - 1], exts[|exts| - 1];
      OverlayBytes(base, front);
      OverlayLast(base, front, last);
      assert exts == front + [last];
    }
  }

  // ----- encoder and decoder -----

  method WriteSparse(f: SparseFile, z: Zstd) returns (out: seq<byte>, logical: nat, dataBytes: nat)
    requires HolesAreZero(f)
    ensures Covers(f.bytes, DataExtents(f, 0), 0)
    ensures out == SparseBytes(|f.bytes|, DataExtents(f, 0), z)
    ensures |out| >= 12 && out[..12] == [0x41, 0x54, 0x45, 0x53, 0x50, 0x52, 0x53, 0x45, 2, 0, 0, 0]
    ensures exists plain :: out[12..] == z.encode(plain) && Holds(plain, 0, |f.bytes|) && EndsInOnes(plain)
    ensures logical == |f.bytes| && dataBytes == TotalData(DataExtents(f, 0))
  {
    DataExtentsCover(f, 0);
    var size := |f.bytes|;
    out := MAGIC + LittleEndian(VERSION, 4);
    var body;
    body, dataBytes := WriteExtents(f);
    out := out + z.encode(Int64(size) + body + Int64(END));
    logical := size;
    HeaderBytes(size, DataExtents(f, 0), z);
    PayloadBytes(size, DataExtents(f, 0));
  }

  lemma TotalDataLast(exts: seq<Extent>, e: Extent)
    ensures TotalData(exts + [e]) == TotalData(exts) + |e.data|
  {
    assert (exts + [e])[..|exts|] == exts;
  }

  lemma NextExtent(f: SparseFile, done: seq<Extent>, off: nat)
    requires HolesAreZero(f) && off <= |f.bytes| && SeekData(f, off).Some?
    requires DataExtents(f, 0) == done + DataExtents(f, off)
    ensures var ds := SeekData(f, off).value;
            var de := SeekHole(f, ds);
            DataExtents(f, 0) == done + [Extent(ds, f.bytes[ds..de])] + DataExtents(f, de)
  {
  }

  lemma ExtentWritten(f: SparseFile, done: seq<Extent>, ds: nat, de: nat)
    requires ds <= de <= |f.bytes|
    ensures var next := done + [Extent(ds, f.bytes[ds..de])];
            && Body(next) == Body(done) + (Int64(ds) + Int64(de - ds) + f.bytes[ds..de])
            && TotalData(next) == TotalData(done) + (de - ds)
  {
    var e := Extent(ds, f.bytes[ds..de]);
    BodyLast(done, e);
    TotalDataLast(done, e);
  }

  /** What has been printed when the loop has come to `off`. */
  ghost predicate Printed(f: SparseFile, done: seq<Extent>, off: nat, body: seq<byte>, dataBytes: nat)
    requires |f.bytes| == |f.isData| && off <= |f.bytes|
  {
    DataExtents(f, 0) == done + DataExtents(f, off) && body == Body(done) && dataBytes == TotalData(done)
  }

  lemma PrintedNext(f: SparseFile, done: seq<Extent>, off: nat, body: seq<byte>, dataBytes: nat)
    requires HolesAreZero(f) && off <= |f.bytes| && SeekData(f, off).Some? && Printed(f, done, off, body, dataBytes)
    ensures var ds := SeekData(f, off).value;
            var de := SeekHole(f, ds);
            Printed(f, done + [Extent(ds, f.bytes[ds..de])], de, body + (Int64(ds) + Int64(de - ds) + f.bytes[ds..de]),
                    dataBytes + (de - ds))
  {
    var ds := SeekData(f, off).value;
    NextExtent(f, done, off);
    ExtentWritten(f, done, ds, SeekHole(f, ds));
  }

  /** The extent loop: one SEEK_DATA, one SEEK_HOLE and one copy a turn, from a strictly growing offset. */
  method WriteExtents(f: SparseFile) returns (body: seq<byte>, dataBytes: nat)
    requires HolesAreZero(f)
    ensures body == Body(DataExtents(f, 0)) && dataBytes == TotalData(DataExtents(f, 0))
  {
    var size := |f.bytes|;
    body, dataBytes := [], 0;
    var off := 0;
    ghost var done := [];
    while off < size
      invariant 0 <= off <= size && Printed(f, done, off, body, dataBytes)
      decreases size - off
    {
      var seek := SeekData(f, off);
      if seek.None? {
        break;
      }
      var ds := seek.value;
      var de := SeekHole(f, ds);
      var length := de - ds;
      PrintedNext(f, done, off, body, dataBytes);
      body := body + (Int64(ds) + Int64(length) + f.bytes[ds..de]);
      dataBytes := dataBytes + length;
      done := done + [Extent(ds, f.bytes[ds..de])];
      off := de;
    }
    assert DataExtents(f, off) == [] && done + [] == done;
  }

  function TotalData(exts: seq<Extent>): nat {
    if exts == [] then 0 else TotalData(exts[..|exts| - 1]) + |exts[|exts| - 1].data|
  }

  lemma {:induction false} BodyLast(exts: seq<Extent>, e: Extent)
    ensures Body(exts + [e]) == Body(exts) + ExtentBytes(e)
    decreases |exts|
  {
    if exts == [] {
      assert [] + [e] == [e] && [e][1..] == [];
      assert ExtentBytes(e) + [] == ExtentBytes(e) && [] + ExtentBytes(e) == ExtentBytes(e);
    } else {
      BodyLast(exts[1..], e);
      assert (exts + [e])[1..] == exts[1..] + [e];
      Joined(ExtentBytes(exts[0]), Body(exts[1..]), ExtentBytes(e));
    }
  }

  /** Decoding what follows the magic into a file: accepted exactly when it parses, and then the file has the
      declared size and holds the extents laid over its former content cut or extended to that size. */
  method ReadSparse(dst: File, src: seq<byte>, z: Zstd) returns (r: Option<nat>)
    modifies dst
    ensures r.Some? <==> ParseSparse(src, z).Some?
    ensures r.Some? <==> [2, 0, 0, 0] <= src && ParsePayload(z.decode(src[4..]).bytes).Some?
    ensures r.Some? ==>
              var c := ParseSparse(src, z).value;
              r.value == c.size == |dst.bytes| && dst.bytes == Overlay(Resized(old(dst.bytes), c.size), c.exts)
  {
    if |src| < 4 {
      return None;
    }
    var ver := FromLittleEndian(src[..4]);
    VersionBytes(src[..4]);
    if ver != VERSION {
      return None;
    }
    var plain := z.decode(src[4..]).bytes;
    if |plain| < 8 {
      return None;
    }
    var declared := FromInt64(plain[..8]);
    if declared < 0 {
      return None;
    }
    var size: nat := declared;
    dst.Truncate(size);
    ghost var base := dst.bytes;
    var rest := plain[8..];
    ghost var exts := [];
    AfterAfter([], [], ParseBody(rest, size));
    while true
      invariant dst.bytes == Overlay(base, exts) && |dst.bytes| == size
      invariant ParseBody(plain[8..], size) == After(exts, ParseBody(rest, size))
      decreases |rest|
    {
      if |rest| < 8 {
        return None;
      }
      var off := FromInt64(rest[..8]);
      if off == END {
        AfterAfter(exts, [], Some([]));
        break;
      }
      if |rest| < 16 {
        return None;
      }
      var length := FromInt64(rest[8..16]);
      RangeCheckFits(plain[..8], rest[..8], rest[8..16]);
      if off < 0 || length < 0 || off > size || length > size - off {
        return None;
      }
      if |rest| < 16 + length {
        return None;
      }
      var data := rest[16..16 + length];
      dst.WriteAt(off, data);
      OverlayLast(base, exts, Extent(off, data));
      AfterAfter(exts, [Extent(off, data)], ParseBody(rest[16 + length..], size));
      exts := exts + [Extent(off, data)];
      rest := rest[16 + length..];
    }
    return Some(size);
  }

  /** An accepted stream in words: the output has the declared length, and every byte is that of the last
      extent covering it, or zero. */
  lemma AcceptedStream(src: seq<byte>, z: Zstd, out: seq<byte>)
    requires ParseSparse(src, z).Some?
    requires var c := ParseSparse(src, z).value; out == Overlay(Resized([], c.size), c.exts)
    ensures var c := ParseSparse(src, z).value;
            && |out| == c.size
            && (forall k :: 0 <= k < |c.exts| ==> InRange(c.exts[k], c.size))
            && forall i :: 0 <= i < c.size ==> out[i] == ByteAt(Zeros(c.size), c.exts, i)
  {
    var c := ParseSparse(src, z).value;
    ParsedInRange(z.decode(src[4..]).bytes[8..], c.size);
    OverlayBytes(Resized([], c.size), c.exts);
    assert Resized([], c.size) == Zeros(c.size);
  }
}
