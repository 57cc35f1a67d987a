/** Snapshot objects: sparse-extent for files, plain zstd for streams, told apart by the magic
    (internal/snapshotstore/codec.go). */
module Codec {
  import opened Types
  import opened Bytes
  import opened SparseCodec

  const BLOCK: nat := 65536

  /** What writeContent is given: an open file, or any other reader. */
  datatype Source = FromFile(file: SparseFile) | FromReader(bytes: seq<byte>)

  function ContentOf(s: Source): seq<byte> {
    match s
    case FromFile(f) => f.bytes
    case FromReader(b) => b
  }

  function Encoded(s: Source, z: Zstd): seq<byte>
    requires s.FromFile? ==> HolesAreZero(s.file)
  {
    match s
    case FromFile(f) => SparseBytes(|f.bytes|, DataExtents(f, 0), z)
    case FromReader(b) => z.encode(b)
  }

  method WriteContent(s: Source, z: Zstd) returns (out: seq<byte>, logical: nat, populated: nat)
    requires s.FromFile? ==> HolesAreZero(s.file)
    ensures out == Encoded(s, z) && logical == |ContentOf(s)|
    ensures populated == match s case FromFile(f) => TotalData(DataExtents(f, 0)) case FromReader(b) => |b|
  {
    match s
    case FromFile(f) => out, logical, populated := WriteSparse(f, z);
    case FromReader(b) => out, logical, populated := z.encode(b), |b|, |b|;
  }

  predicate IsSparse(src: seq<byte>) {
    |src| >= 8 && src[..8] == MAGIC
  }

  /** What decoding an object into a file that holds `initial` leaves there, if it succeeds. */
  function Decoded(src: seq<byte>, initial: seq<byte>, z: Zstd): Option<seq<byte>> {
    if IsSparse(src) then
      match ParseSparse(src[8..], z)
      case None => None
      case Some(c) => Some(Overlay(Resized(initial, c.size), c.exts))
    else
      var s := z.decode(src);
      if s.clean then Some(s.bytes) else None
  }

  /** A Zstandard frame is never taken for a sparse stream. */
  lemma FrameIsNotSparse(src: seq<byte>)
    requires [0x28, 0xB5, 0x2F, 0xFD] <= src
    ensures !IsSparse(src)
  {
    assert src[0] == FRAME_MAGIC[0];
    if |src| >= 8 {
      assert src[..8][0] == src[0] && MAGIC[0] != FRAME_MAGIC[0];
    }
  }

  /** Both kinds of object decode to the content they were made from, in a freshly created file. */
  lemma ContentRoundTrip(s: Source, z: Zstd)
    requires Lossless(z) && (s.FromFile? ==> HolesAreZero(s.file))
    ensures Decoded(Encoded(s, z), [], z) == Some(ContentOf(s))
    ensures IsSparse(Encoded(s, z)) <==> s.FromFile?
  {
    match s
    case FromFile(f) =>
      DataExtentsCover(f, 0);
      SparseRoundTrip(f.bytes, DataExtents(f, 0), z);
      assert Encoded(s, z)[..8] == MAGIC;
    case FromReader(b) =>
      if z.encode(b) != [] {
        FrameIsNotSparse(z.encode(b));
      }
  }

  // ----- the decoder -----

  method AllZero(b: seq<byte>) returns (zero: bool)
    ensures zero <==> forall i :: 0 <= i < |b| ==> b[i] == 0
  {
    var i := 0;
    while i + 8 <= |b|
      invariant 0 <= i <= |b|
      invariant forall j :: 0 <= j < i ==> b[j] == 0
    {
      var word := b[i..i + 8];
      ZeroWord(word);
      assert forall j :: i <= j < i + 8 ==> b[j] == word[j - i];
      if FromLittleEndian(word) != 0 {
        return false;
      }
      i := i + 8;
    }
    while i < |b|
      invariant 0 <= i <= |b|
      invariant forall j :: 0 <= j < i ==> b[j] == 0
    {
      if b[i] != 0 {
        return false;
      }
      i := i + 1;
    }
    return true;
  }

  /** Bytes of those whole blocks that are not all zero: what the copier has to write. */
  function Populated(bytes: seq<byte>): nat
    decreases |bytes|
  {
    if bytes == [] then 0
    else
      var n := if |bytes| < BLOCK then |bytes| else BLOCK;
      (if bytes[..n] == Zeros(n) then 0 else n) + Populated(bytes[n..])
  }

  /** Blocks are of 64 KiB, the last one what is left; each counts whole or not at all. */
  lemma PopulatedBlocks(bytes: seq<byte>)
    ensures |bytes| <= 0x1_0000 ==>
              Populated(bytes) == if forall i :: 0 <= i < |bytes| ==> bytes[i] == 0 then 0 else |bytes|
    ensures |bytes| > 0x1_0000 ==> Populated(bytes) == Populated(bytes[..0x1_0000]) + Populated(bytes[0x1_0000..])
  {
    if |bytes| <= 0x1_0000 {
      assert bytes[..|bytes|] == bytes && bytes[|bytes|..] == [];
      assert bytes == Zeros(|bytes|) <==> forall i :: 0 <= i < |bytes| ==> bytes[i] == 0;
    } else {
      var block := bytes[..0x1_0000];
      assert block[..0x1_0000] == block && block[0x1_0000..] == [];
    }
  }

  /** Copying while skipping zero blocks leaves the same file as copying everything. */
  method CopySparse(dst: File, src: Stream) returns (ok: bool, size: nat, written: nat)
    modifies dst
    ensures ok <==> src.clean
    ensures ok ==> dst.bytes == src.bytes && size == |src.bytes| && written == Populated(src.bytes)
  {
    dst.Truncate(0);
    var pos := 0;
    size, written := 0, 0;
    var more := true;
    while more
      invariant 0 <= pos <= |src.bytes| && |dst.bytes| <= pos
      invariant Resized(dst.bytes, pos) == src.bytes[..pos]
      invariant Populated(src.bytes) == written + Populated(src.bytes[pos..])
      invariant !more ==> pos == |src.bytes| && src.clean
      decreases more, |src.bytes| - pos
    {
      var n := if |src.bytes| - pos < BLOCK then |src.bytes| - pos else BLOCK;
      if n > 0 {
        var chunk := src.bytes[pos..pos + n];
        var zero := AllZero(chunk);
        BlockDone(dst.bytes, src.bytes, pos, n);
        if !zero {
          dst.WriteAt(pos, chunk);
          written := written + n;
        }
        pos := pos + n;
      }
      if n < BLOCK {
        if !src.clean {
          return false, 0, 0;
        }
        more := false;
      }
    }
    assert src.bytes[..pos] == src.bytes;
    dst.Truncate(pos);
    return true, pos, written;
  }

  lemma BlockDone(file: seq<byte>, bytes: seq<byte>, pos: nat, n: nat)
    requires pos + n <= |bytes| && |file| <= pos && Resized(file, pos) == bytes[..pos]
    requires 0 < n && n == if |bytes| - pos < BLOCK then |bytes| - pos else BLOCK
    ensures var chunk := bytes[pos..pos + n];
            var zero := forall i :: 0 <= i < n ==> chunk[i] == 0;
            && Resized(if zero then file else Written(file, pos, chunk), pos + n) == bytes[..pos + n]
            && Populated(bytes[pos..]) == (if zero then 0 else n) + Populated(bytes[pos + n..])
  {
    var chunk := bytes[pos..pos + n];
    var zero := forall i :: 0 <= i < n ==> chunk[i] == 0;
    assert zero <==> chunk == Zeros(n);
    PopulatedBlock(bytes, pos, n);
    assert bytes[..pos + n] == bytes[..pos] + chunk;
    if zero {
      ResizedMore(file, pos, n);
    } else {
      WrittenMore(file, pos, chunk);
    }
  }

  lemma PopulatedBlock(bytes: seq<byte>, pos: nat, n: nat)
    requires pos + n <= |bytes| && 0 < n && n == if |bytes| - pos < BLOCK then |bytes| - pos else BLOCK
    ensures Populated(bytes[pos..]) ==
            (if bytes[pos..pos + n] == Zeros(n) then 0 else n) + Populated(bytes[pos + n..])
  {
    assert bytes[pos..][..n] == bytes[pos..pos + n] && bytes[pos..][n..] == bytes[pos + n..];
  }

  lemma ResizedMore(file: seq<byte>, pos: nat, n: nat)
    requires |file| <= pos
    ensures Resized(file, pos + n) == Resized(file, pos) + Zeros(n)
  {
  }

  lemma WrittenMore(file: seq<byte>, pos: nat, chunk: seq<byte>)
    requires |file| <= pos
    ensures Resized(Written(file, pos, chunk), pos + |chunk|) == Resized(file, pos) + chunk
  {
  }

  /** The magic is looked at and handed on: a plain object reaches the decompressor whole. */
  method DecodeContent(dst: File, src: seq<byte>, z: Zstd) returns (ok: bool, logical: nat)
    modifies dst
    ensures ok <==> Decoded(src, old(dst.bytes), z).Some?
    ensures ok ==> Some(dst.bytes) == Decoded(src, old(dst.bytes), z) && logical == |dst.bytes|
    ensures [0x41, 0x54, 0x45, 0x53, 0x50, 0x52, 0x53, 0x45] <= src ==> (ok <==> ParseSparse(src[8..], z).Some?)
    ensures !([0x41, 0x54, 0x45, 0x53, 0x50, 0x52, 0x53, 0x45] <= src) ==>
              (ok <==> z.decode(src).clean) && (ok ==> dst.bytes == z.decode(src).bytes)
  {
    var n := if |src| < 8 then |src| else 8;
    var magic, rest := src[..n], src[n..];
    if n == 8 && magic == MAGIC {
      var size := ReadSparse(dst, rest, z);
      if size.None? {
        return false, 0;
      }
      return true, size.value;
    }
    assert magic + rest == src;
    var written;
    ok, logical, written := CopySparse(dst, z.decode(magic + rest));
  }

  /** Into anything but a file: a sparse object is refused, a plain one copied. */
  method DecodeToWriter(src: seq<byte>, z: Zstd) returns (ok: bool, out: seq<byte>)
    ensures ok <==> !IsSparse(src) && Decoded(src, [], z).Some?
    ensures ok ==> Some(out) == Decoded(src, [], z)
    ensures ok <==> !([0x41, 0x54, 0x45, 0x53, 0x50, 0x52, 0x53, 0x45] <= src) && z.decode(src).clean
  {
    var n := if |src| < 8 then |src| else 8;
    var magic, rest := src[..n], src[n..];
    if n == 8 && magic == MAGIC {
      return false, [];
    }
    assert magic + rest == src;
    var s := z.decode(magic + rest);
    return s.clean, s.bytes;
  }
}
