/**
 * The placeholder image: a PNG file assembled from checksummed chunks, and a reader for the
 * format, which recovers the picture and refuses damaged chunks.
 */
module Png {
  import opened Numeric
  import opened Gf2
  import opened Crc

  const LIMIT: nat := 0x1_0000_0000

  /** What setUint32 stores for a number: its low four bytes, most significant first. */
  function NumberBytes(n: nat): (b: Bytes)
    ensures |b| == 4
  {
    var n1 := n / 0x100;
    var n2 := n1 / 0x100;
    var n3 := n2 / 0x100;
    [(n3 % 0x100) as bv8, (n2 % 0x100) as bv8, (n1 % 0x100) as bv8, (n % 0x100) as bv8]
  }

  function ReadNumber(b: Bytes): (n: nat)
    requires |b| == 4
    ensures n < LIMIT
  {
    (((b[0] as int) * 0x100 + b[1] as int) * 0x100 + b[2] as int) * 0x100 + b[3] as int
  }

  lemma NextByte(b: bv8)
    requires b < 0xff
    ensures (b + 1) as int == b as int + 1
  {
  }

  lemma SameByteBack(b: bv8)
    ensures (b as int) as bv8 == b
  {
  }

  lemma NotLast(b: bv8)
    requires (b as int) < 0xff
    ensures b < 0xff
  {
  }

  lemma {:induction false} ByteOf(n: nat) returns (b: bv8)
    requires n < 0x100
    ensures b as int == n
  {
    b := 0;
    if n == 0 {
    } else {
      b := ByteOf(n - 1);
      NotLast(b);
      NextByte(b);
      b := b + 1;
    }
  }

  lemma ByteValue(n: nat)
    requires n < 0x100
    ensures (n as bv8) as int == n
  {
    var b := ByteOf(n);
    SameByteBack(b);
  }

  lemma Digits(n: nat, n1: nat, n2: nat, n3: nat)
    requires n1 == n / 0x100 && n2 == n1 / 0x100 && n3 == n2 / 0x100
    ensures ((n3 % 0x100 * 0x100 + n2 % 0x100) * 0x100 + n1 % 0x100) * 0x100 + n % 0x100 == n % LIMIT
  {
    var top := n3 / 0x100;
    assert n == top * LIMIT + ((n3 % 0x100 * 0x100 + n2 % 0x100) * 0x100 + n1 % 0x100) * 0x100 + n % 0x100;
  }

  lemma NumberRoundTrip(n: nat)
    ensures ReadNumber(NumberBytes(n)) == n % LIMIT
  {
    var n1 := n / 0x100;
    var n2 := n1 / 0x100;
    var n3 := n2 / 0x100;
    ByteValue(n3 % 0x100);
    ByteValue(n2 % 0x100);
    ByteValue(n1 % 0x100);
    ByteValue(n % 0x100);
    Digits(n, n1, n2, n3);
  }

  /** What setUint32 stores for a checksum. */
  function WordBytes(c: bv32): (b: Bytes)
    ensures |b| == 4
  {
    [((c >> 24) & 0xff) as bv8, ((c >> 16) & 0xff) as bv8, ((c >> 8) & 0xff) as bv8, (c & 0xff) as bv8]
  }

  /** The most significant byte comes first. */
  lemma WordBytesRead(c: bv32)
    ensures var b := WordBytes(c);
      c == (b[0] as bv32 << 24) | (b[1] as bv32 << 16) | (b[2] as bv32 << 8) | b[3] as bv32
  {
  }

  lemma WordBytesApart(c: bv32, d: bv32)
    requires WordBytes(c) == WordBytes(d)
    ensures c == d
  {
    var b, e := WordBytes(c), WordBytes(d);
    assert b[0] == e[0] && b[1] == e[1] && b[2] == e[2] && b[3] == e[3];
  }

  // --- chunks ---

  /** A chunk cut into its fields, and what follows it. */
  datatype Frame = Frame(kind: Bytes, data: Bytes, sum: Bytes, rest: Bytes)

  function Framed(f: Frame): Bytes {
    NumberBytes(|f.data|) + f.kind + f.data + f.sum + f.rest
  }

  /** Cuts the chunk at the front of s, when it is whole. */
  function ReadFrame(s: Bytes): Option<Frame> {
    if |s| < 12 then None
    else
      var n := ReadNumber(s[..4]);
      if |s| < 12 + n then None
      else Some(Frame(s[4..8], s[8..8 + n], s[8 + n..12 + n], s[12 + n..]))
  }

  lemma Cut(length: Bytes, f: Frame, s: Bytes)
    requires |length| == |f.kind| == |f.sum| == 4
    requires s == length + f.kind + f.data + f.sum + f.rest
    ensures |s| >= 12 + |f.data| && s[..4] == length && s[4..8] == f.kind && s[8..8 + |f.data|] == f.data
    ensures s[8 + |f.data|..12 + |f.data|] == f.sum && s[12 + |f.data|..] == f.rest
  {
  }

  lemma CutReads(length: Bytes, f: Frame, s: Bytes)
    requires |length| == |f.kind| == |f.sum| == 4 && ReadNumber(length) == |f.data|
    requires s == length + f.kind + f.data + f.sum + f.rest
    ensures ReadFrame(s) == Some(f)
  {
    Cut(length, f, s);
  }

  lemma SmallMod(n: nat)
    requires n < LIMIT
    ensures n % LIMIT == n
  {
  }

  lemma ShortNumber(n: nat)
    requires n < LIMIT
    ensures ReadNumber(NumberBytes(n)) == n
  {
    SmallMod(n);
    NumberRoundTrip(n);
  }

  lemma FrameReads(f: Frame)
    requires |f.kind| == |f.sum| == 4 && |f.data| < LIMIT
    ensures ReadFrame(Framed(f)) == Some(f)
  {
    ShortNumber(|f.data|);
    CutReads(NumberBytes(|f.data|), f, Framed(f));
  }

  lemma TooLong(s: Bytes, f: Frame)
    requires |f.data| >= LIMIT
    ensures ReadFrame(s) != Some(f)
  {
  }

  /** A chunk is cut where it was joined exactly when its length fits the 32-bit field. */
  lemma FrameRoundTrip(f: Frame)
    requires |f.kind| == |f.sum| == 4
    ensures ReadFrame(Framed(f)) == Some(f) <==> |f.data| < LIMIT
  {
    if |f.data| < LIMIT { FrameReads(f); } else { TooLong(Framed(f), f); }
  }

  function SumBytes(bytes: Bytes): (b: Bytes)
    ensures |b| == 4
  {
    WordBytes(Checksum(bytes))
  }

  /** Length, type, data, and the checksum of type and data. */
  function Chunk(kind: Bytes, data: Bytes): (r: Bytes)
    ensures |r| == 8 + |kind| + |data|
  {
    NumberBytes(|data|) + kind + data + SumBytes(kind + data)
  }

  /** Reads the chunk at the front of s, when it is whole and its checksum agrees. */
  function ReadChunk(s: Bytes): Option<Frame> {
    match ReadFrame(s)
    case None => None
    case Some(f) => if SumBytes(f.kind + f.data) == f.sum then Some(f) else None
  }

  /** A chunk reads back exactly when its length fits the 32-bit field. */
  lemma ChunkRoundTrip(kind: Bytes, data: Bytes, rest: Bytes)
    requires |kind| == 4
    ensures var f := Frame(kind, data, SumBytes(kind + data), rest);
      ReadChunk(Chunk(kind, data) + rest) == Some(f) <==> |data| < LIMIT
  {
    var f := Frame(kind, data, SumBytes(kind + data), rest);
    FrameRoundTrip(f);
    assert Chunk(kind, data) + rest == Framed(f);
  }

  lemma SumsApart(x: Bytes, y: Bytes)
    requires Checksum(x) != Checksum(y)
    ensures SumBytes(x) != SumBytes(y)
  {
    if SumBytes(x) == SumBytes(y) { WordBytesApart(Checksum(x), Checksum(y)); }
  }

  /** A chunk whose type and data were altered within 32 consecutive bits is refused. */
  lemma DamageIsRefused(kind: Bytes, data: Bytes, f: Frame, a: Bits, u: Bits, v: Bits, z: Bits)
    requires |kind| == |f.kind| == 4 && |f.data| == |data| < LIMIT && f.sum == SumBytes(kind + data)
    requires MessageBits(kind + data) == a + u + z && MessageBits(f.kind + f.data) == a + v + z
    requires |u| == |v| <= 32 && u != v
    ensures ReadChunk(Framed(f)) == None
  {
    FrameRoundTrip(f);
    BurstsAreDetected(kind + data, f.kind + f.data, a, u, v, z);
    SumsApart(kind + data, f.kind + f.data);
  }

  /** Typed-array set: overwrites the bytes from an offset on. */
  method Set(out: array<bv8>, offset: nat, bytes: Bytes)
    requires offset + |bytes| <= out.Length
    modifies out
    ensures out[..offset + |bytes|] == old(out[..offset]) + bytes
    ensures out[offset + |bytes|..] == old(out[offset + |bytes|..])
  {
    for i := 0 to |bytes|
      invariant out[..offset + i] == old(out[..offset]) + bytes[..i]
      invariant out[offset + i..] == old(out[offset + i..])
    {
      out[offset + i] := bytes[i];
      assert out[..offset + i + 1] == out[..offset + i] + [bytes[i]];
    }
    assert bytes[..|bytes|] == bytes;
  }

  method SetFields(out: array<bv8>, kind: Bytes, data: Bytes)
    requires |kind| == 4 && out.Length == 12 + |data|
    modifies out
    ensures out[..8 + |data|] == NumberBytes(|data|) + kind + data
  {
    Set(out, 0, NumberBytes(|data|));
    Set(out, 4, kind);
    Set(out, 8, data);
  }

  method PngChunk(table: array<bv32>, kind: Bytes, data: Bytes) returns (out: array<bv8>)
    requires Holds(table[..], Entry) && |kind| == 4
    ensures fresh(out) && out[..] == Chunk(kind, data)
  {
    var n := |data|;
    out := new bv8[12 + n](i => 0);
    SetFields(out, kind, data);
    assert out[4..8 + n] == out[..8 + n][4..] == kind + data;
    var sum := Crc32(table, out[4..8 + n]);
    Set(out, 8 + n, WordBytes(sum));
    assert out[..] == out[..12 + n];
  }

  // --- the file ---

  const SIGNATURE: Bytes := [0x89, 0x50, 0x4e, 0x47, 0x0d, 0x0a, 0x1a, 0x0a]
  const IHDR: Bytes := [0x49, 0x48, 0x44, 0x52]
  const IDAT: Bytes := [0x49, 0x44, 0x41, 0x54]
  const IEND: Bytes := [0x49, 0x45, 0x4e, 0x44]

  /** Bit depth 8, colour type RGB, and the only compression, filter and interlace methods. */
  const RGB: Bytes := [8, 2, 0, 0, 0]

  function Repeat(s: Bytes, n: nat): (r: Bytes)
    ensures |r| == n * |s|
  {
    if n == 0 then [] else Repeat(s, n - 1) + s
  }

  /** A scanline: the filter byte, then the pixels. */
  function Scanline(rgb: Bytes, size: nat): Bytes { [0] + Repeat(rgb, size) }

  function Scanlines(rgb: Bytes, size: nat): Bytes { Repeat(Scanline(rgb, size), size) }

  function Header(size: nat): (h: Bytes)
    ensures |h| == 13
  {
    NumberBytes(size) + NumberBytes(size) + RGB
  }

  type Deflate = Bytes -> Bytes

  function File(rgb: Bytes, size: nat, deflate: Deflate): Bytes {
    SIGNATURE + Chunk(IHDR, Header(size)) + Chunk(IDAT, deflate(Scanlines(rgb, size))) + Chunk(IEND, [])
  }

  lemma HeaderKind(size: nat)
    ensures Header(size)[8..] == [8, 2, 0, 0, 0]
  {
  }

  lemma ChunkOpens(kind: Bytes, data: Bytes)
    requires |kind| == 4
    ensures Chunk(kind, data)[4..8] == kind && Chunk(kind, data)[8..8 + |data|] == data
    ensures Chunk(kind, data)[..4] == NumberBytes(|data|)
  {
  }

  lemma SecondPart(a: Bytes, b: Bytes, c: Bytes, i: nat, j: nat)
    requires i <= j <= |b|
    ensures (a + b + c)[|a| + i..|a| + j] == b[i..j]
  {
  }

  lemma HeaderChunk(size: nat)
    ensures var head := Chunk(IHDR, Header(size));
      && |head| == 25 && head[..4] == [0, 0, 0, 13] && head[4..8] == IHDR && head[16..21] == [8, 2, 0, 0, 0]
  {
    var head := Chunk(IHDR, Header(size));
    ChunkOpens(IHDR, Header(size));
    HeaderKind(size);
    assert head[16..21] == head[8..21][8..];
  }

  /** A signature of eight bytes and a header chunk, as parts of a file. */
  lemma FileParts(signature: Bytes, head: Bytes, rest: Bytes)
    requires |signature| == 8 && |head| == 25
    ensures var file := signature + head + rest;
      && |file| > 29 && file[..8] == signature && file[8..12] == head[..4] && file[12..16] == head[4..8]
      && file[24..29] == head[16..21]
  {
    SecondPart(signature, head, rest, 0, 4);
    SecondPart(signature, head, rest, 4, 8);
    SecondPart(signature, head, rest, 16, 21);
  }

  lemma Gather(a: Bytes, b: Bytes, c: Bytes, d: Bytes)
    ensures a + b + c + d == a + b + (c + d)
  {
  }

  predicate OpensAsRgb(file: Bytes) {
    && |file| > 29 && file[..8] == [137, 80, 78, 71, 13, 10, 26, 10] && file[8..12] == [0, 0, 0, 13]
    && file[12..16] == ['I' as bv8, 'H' as bv8, 'D' as bv8, 'R' as bv8] && file[24..29] == [8, 2, 0, 0, 0]
  }

  lemma PartsOpen(file: Bytes, head: Bytes, data: Bytes, end: Bytes)
    requires file == SIGNATURE + head + data + end
    requires |head| == 25 && head[..4] == [0, 0, 0, 13] && head[4..8] == IHDR && head[16..21] == [8, 2, 0, 0, 0]
    ensures OpensAsRgb(file)
  {
    FileParts(SIGNATURE, head, data + end);
    Gather(SIGNATURE, head, data, end);
  }

  /** Every file opens with the signature of section 5.2 of the PNG Specification (Third Edition) and an IHDR chunk of
      13 bytes for 8-bit RGB. */
  lemma FileOpens(rgb: Bytes, size: nat, deflate: Deflate)
    ensures OpensAsRgb(File(rgb, size, deflate))
  {
    HeaderChunk(size);
    PartsOpen(File(rgb, size, deflate), Chunk(IHDR, Header(size)), Chunk(IDAT, deflate(Scanlines(rgb, size))), Chunk(IEND, []));
  }

  datatype Image = Image(width: nat, height: nat, scanlines: Bytes)

  type Reader = Bytes -> Option<Frame>

  /** Reads a file of one header, one data chunk and the end chunk. */
  function ReadFile(read: Reader, s: Bytes, inflate: Deflate): Option<Image> {
    if |s| < 8 || s[..8] != SIGNATURE then None
    else
      match read(s[8..])
      case None => None
      case Some(h) =>
        if h.kind != IHDR || |h.data| != 13 || h.data[8..] != RGB then None
        else
          match read(h.rest)
          case None => None
          case Some(d) =>
            match read(d.rest)
            case None => None
            case Some(e) =>
              if d.kind != IDAT || e.kind != IEND || e.rest != [] then None
              else Some(Image(ReadNumber(h.data[..4]), ReadNumber(h.data[4..8]), inflate(d.data)))
  }

  lemma ThreeChunks(read: Reader, s: Bytes, inflate: Deflate, h: Frame, d: Frame, e: Frame)
    requires |s| >= 8 && s[..8] == SIGNATURE && |h.data| == 13 && h.data[8..] == RGB
    requires read(s[8..]) == Some(h) && read(h.rest) == Some(d) && read(d.rest) == Some(e)
    requires h.kind == IHDR && d.kind == IDAT && e.kind == IEND && e.rest == []
    ensures ReadFile(read, s, inflate)
         == Some(Image(ReadNumber(h.data[..4]), ReadNumber(h.data[4..8]), inflate(d.data)))
  {
  }

  lemma ChunkFrame(kind: Bytes, data: Bytes, rest: Bytes, s: Bytes) returns (f: Frame)
    requires |kind| == 4 && |data| < LIMIT && s == Chunk(kind, data) + rest
    ensures f.kind == kind && f.data == data && f.rest == rest && ReadChunk(s) == Some(f)
  {
    ChunkRoundTrip(kind, data, rest);
    f := Frame(kind, data, SumBytes(kind + data), rest);
  }

  lemma HeaderParts(a: Bytes, b: Bytes, c: Bytes)
    requires |a| == |b| == 4
    ensures (a + b + c)[..4] == a && (a + b + c)[4..8] == b && (a + b + c)[8..] == c
  {
  }

  lemma HeaderReads(size: nat)
    requires size < LIMIT
    ensures ReadNumber(Header(size)[..4]) == size && ReadNumber(Header(size)[4..8]) == size
    ensures Header(size)[8..] == RGB
  {
    HeaderParts(NumberBytes(size), NumberBytes(size), RGB);
    ShortNumber(size);
  }

  lemma Pieces(a: Bytes, b: Bytes, c: Bytes, d: Bytes)
    ensures (a + b + c + d)[|a|..] == b + (c + d) && (a + b + c + d)[..|a|] == a
    ensures d + [] == d
  {
  }

  /** The file reads back as the header's size and the scanlines that were compressed. */
  lemma FileRoundTrip(rgb: Bytes, size: nat, deflate: Deflate, inflate: Deflate)
    requires size < LIMIT && |deflate(Scanlines(rgb, size))| < LIMIT
    requires inflate(deflate(Scanlines(rgb, size))) == Scanlines(rgb, size)
    ensures ReadFile(ReadChunk, File(rgb, size, deflate), inflate)
         == Some(Image(size, size, Scanlines(rgb, size)))
  {
    var d := deflate(Scanlines(rgb, size));
    var s, end := File(rgb, size, deflate), Chunk(IEND, []);
    Pieces(SIGNATURE, Chunk(IHDR, Header(size)), Chunk(IDAT, d), end);
    var first := ChunkFrame(IHDR, Header(size), Chunk(IDAT, d) + end, s[8..]);
    var second := ChunkFrame(IDAT, d, end, first.rest);
    var third := ChunkFrame(IEND, [], [], second.rest);
    HeaderReads(size);
    ThreeChunks(ReadChunk, s, inflate, first, second, third);
  }

  lemma {:induction false} RepeatAt(s: Bytes, n: nat, i: nat)
    requires i < n
    ensures (i + 1) * |s| <= n * |s| && Repeat(s, n)[i * |s|..(i + 1) * |s|] == s
  {
    if i < n - 1 {
      RepeatAt(s, n - 1, i);
      assert n * |s| == (n - 1) * |s| + |s|;
    }
  }

  /** Line y of the image: its filter byte and then its pixels. */
  function Line(i: Image, y: nat): Bytes
    requires y < i.height && |i.scanlines| == i.height * (1 + i.width * 3)
  {
    var w := 1 + i.width * 3;
    assert (y + 1) * w <= i.height * w;
    i.scanlines[y * w..(y + 1) * w]
  }

  lemma ScanlineAt(rgb: Bytes, size: nat, x: nat, k: nat)
    requires |rgb| == 3 && x < size && k < 3
    ensures Scanline(rgb, size)[0] == 0 && Scanline(rgb, size)[1 + x * 3 + k] == rgb[k]
  {
    RepeatAt(rgb, size, x);
    assert Repeat(rgb, size)[x * 3 + k] == Repeat(rgb, size)[x * 3..(x + 1) * 3][k];
  }

  /** Every pixel of the picture has the given colour, and every line is unfiltered. */
  lemma PictureIsSolid(rgb: Bytes, size: nat, x: nat, y: nat, k: nat)
    requires |rgb| == 3 && x < size && y < size && k < 3
    ensures |Scanlines(rgb, size)| == size * (1 + size * 3)
    ensures |Line(Image(size, size, Scanlines(rgb, size)), y)| == 1 + size * 3
    ensures Line(Image(size, size, Scanlines(rgb, size)), y)[0] == 0
    ensures Line(Image(size, size, Scanlines(rgb, size)), y)[1 + x * 3 + k] == rgb[k]
  {
    var line := Scanline(rgb, size);
    assert |line| == 1 + size * 3;
    RepeatAt(line, size, y);
    ScanlineAt(rgb, size, x, k);
  }

  // --- assembling the file in place ---

  lemma RepeatStep(s: Bytes, n: nat)
    ensures Repeat(s, n) + s == Repeat(s, n + 1)
    ensures |s| * n + |s| == |s| * (n + 1)
  {
  }

  lemma RepeatFits(s: Bytes, i: nat, n: nat)
    requires i < n
    ensures i * |s| + |s| <= n * |s|
  {
    assert i * |s| + |s| == (i + 1) * |s|;
    RepeatAt(s, n, i);
  }

  /** Fills an array from an offset on with copies of bytes, one set call each. */
  method SetRepeated(out: array<bv8>, offset: nat, bytes: Bytes, n: nat)
    requires out.Length == offset + n * |bytes|
    modifies out
    ensures out[..] == old(out[..offset]) + Repeat(bytes, n)
  {
    for i := 0 to n
      invariant i * |bytes| <= n * |bytes|
      invariant out[..offset + i * |bytes|] == old(out[..offset]) + Repeat(bytes, i)
    {
      RepeatFits(bytes, i, n);
      Set(out, offset + i * |bytes|, bytes);
      RepeatStep(bytes, i);
      assert (old(out[..offset]) + Repeat(bytes, i)) + bytes == old(out[..offset]) + Repeat(bytes, i + 1);
      assert i * |bytes| + |bytes| == (i + 1) * |bytes|;
    }
    assert out[..] == out[..offset + n * |bytes|];
  }

  method MakeScanlines(rgb: Bytes, size: nat) returns (raw: array<bv8>)
    requires |rgb| == 3
    ensures fresh(raw) && raw[..] == Scanlines(rgb, size)
  {
    var row := new bv8[1 + size * 3](i => 0);
    SetRepeated(row, 1, rgb, size);
    assert row[..] == Scanline(rgb, size);
    raw := new bv8[size * row.Length](i => 0);
    SetRepeated(raw, 0, row[..], size);
    assert raw[..] == [] + Repeat(row[..], size);
  }

  function Total(chunks: seq<Bytes>): nat {
    if chunks == [] then 0 else Total(chunks[..|chunks| - 1]) + |chunks[|chunks| - 1]|
  }

  function Flat(chunks: seq<Bytes>): (r: Bytes)
    ensures |r| == Total(chunks)
  {
    if chunks == [] then [] else Flat(chunks[..|chunks| - 1]) + chunks[|chunks| - 1]
  }

  lemma {:induction false} TotalGrows(chunks: seq<Bytes>, i: nat)
    requires i < |chunks|
    ensures Total(chunks[..i + 1]) == Total(chunks[..i]) + |chunks[i]| <= Total(chunks)
    decreases |chunks|
  {
    assert chunks[..i + 1][..i] == chunks[..i];
    if i + 1 == |chunks| {
      assert chunks[..i + 1] == chunks;
    } else {
      var shorter := chunks[..|chunks| - 1];
      assert shorter[..i + 1] == chunks[..i + 1] && shorter[..i] == chunks[..i];
      TotalGrows(shorter, i);
    }
  }

  lemma FlatStep(chunks: seq<Bytes>, i: nat)
    requires i < |chunks|
    ensures Flat(chunks[..i + 1]) == Flat(chunks[..i]) + chunks[i]
  {
    assert chunks[..i + 1][..i] == chunks[..i];
  }

  /** Copies the chunks one after the other. */
  method Join(chunks: seq<Bytes>) returns (out: array<bv8>)
    ensures fresh(out) && out[..] == Flat(chunks)
  {
    out := new bv8[Total(chunks)](i => 0);
    var offset := 0;
    for i := 0 to |chunks|
      invariant offset == Total(chunks[..i]) <= out.Length
      invariant out[..offset] == Flat(chunks[..i])
    {
      TotalGrows(chunks, i);
      FlatStep(chunks, i);
      Set(out, offset, chunks[i]);
      offset := offset + |chunks[i]|;
    }
    assert chunks[..|chunks|] == chunks;
    assert out[..] == out[..offset];
  }

  lemma FlatAppend(chunks: seq<Bytes>, last: Bytes)
    ensures Flat(chunks + [last]) == Flat(chunks) + last
  {
    assert (chunks + [last])[..|chunks|] == chunks;
  }

  lemma FlatFour(a: Bytes, b: Bytes, c: Bytes, d: Bytes)
    ensures Flat([a, b, c, d]) == a + b + c + d
  {
    FlatAppend([], a);
    FlatAppend([a], b);
    FlatAppend([a, b], c);
    FlatAppend([a, b, c], d);
    assert [] + [a] == [a] && [a] + [b] == [a, b] && [a, b] + [c] == [a, b, c] && [a, b, c] + [d] == [a, b, c, d];
    assert [] + a == a;
  }

  method MakePng(table: array<bv32>, rgb: Bytes, size: nat, deflate: Deflate) returns (png: array<bv8>)
    requires Holds(table[..], Entry) && |rgb| == 3
    ensures fresh(png) && png[..] == File(rgb, size, deflate)
  {
    var ihdr := new bv8[13](i => 0);
    Set(ihdr, 0, NumberBytes(size));
    Set(ihdr, 4, NumberBytes(size));
    Set(ihdr, 8, RGB);
    assert ihdr[..] == ihdr[..13] == Header(size);
    var raw := MakeScanlines(rgb, size);
    var head := PngChunk(table, IHDR, ihdr[..]);
    var body := PngChunk(table, IDAT, deflate(raw[..]));
    var end := PngChunk(table, IEND, []);
    png := Join([SIGNATURE, head[..], body[..], end[..]]);
    FlatFour(SIGNATURE, head[..], body[..], end[..]);
  }
}
