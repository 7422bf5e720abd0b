/**
 * The Open Graph image writer (frontend/generate-og.js): a 1200x630 RGB PNG
 * written byte by byte, following the PNG specification (ISO/IEC 15948):
 * the signature, chunks framed by a big-endian length, a type, the data and a
 * CRC-32, the IHDR header, raw scanlines with filter type 0, and the empty
 * IEND chunk. The zlib compression of the scanlines is foreign code: the
 * compressed IDAT payload is an input.
 */
module OgPng {
  import opened Wrappers

  /** A byte, as a number: the scanlines and integers are arithmetic, and only the CRC register is a bit-vector. */
  newtype Byte = x: int | 0 <= x < 0x100

  /** The eight-byte PNG signature (PNG specification, section 5.2). */
  const Signature: seq<Byte> := [137, 80, 78, 71, 13, 10, 26, 10]

  /** The reflected CRC-32 polynomial (Annex D). */
  const Polynomial: bv32 := 0xEDB8_8320

  // CRC-32

  /** Shift amounts, typed as bit-vectors so that the solver reasons about shifts without integer conversions. */
  const One: bv5 := 1

  /** One step of the register: `(crc >>> 1) ^ (crc & 1 ? 0xedb88320 : 0)`. */
  function Shift(c: bv32): bv32
  {
    (c >> One) ^ (if (c & 1) == 1 then Polynomial else 0)
  }

  /**
   * `n` steps of the register. The register is part of the decreases clause
   * so that only a fully literal call is evaluated eagerly.
   */
  function ShiftN(c: bv32, n: nat): bv32
    decreases n, c
  {
    if n == 0 then c else ShiftN(Shift(c), n - 1)
  }

  /** The register after one byte, least significant bit first: `crc ^ byte`, then eight steps. */
  function UpdateByte(c: bv32, b: Byte): bv32
  {
    ShiftN(c ^ (b as bv32), 8)
  }

  /** The register after the bytes of `data`, in order. */
  function Register(c: bv32, data: seq<Byte>): bv32
  {
    if data == [] then c else UpdateByte(Register(c, data[..|data| - 1]), data[|data| - 1])
  }

  /** The largest value a 32-bit word can hold, plus one. */
  const WordLimit := 0x1_0000_0000

  /** `crc32(data)`: the register started at all ones, complemented, read as an unsigned number. */
  function Crc32(data: seq<Byte>): (r: nat)
    ensures r < WordLimit
    ensures data == [] ==> r == 0
  {
    (!Register(0xFFFF_FFFF, data)) as int
  }

  /** The bit loop of `crc32`: eight steps of the register. */
  method ShiftByte(c0: bv32) returns (c: bv32)
    ensures c == ShiftN(c0, 8)
  {
    c := c0;
    var j := 0;
    while j < 8
      invariant 0 <= j <= 8
      invariant ShiftN(c, 8 - j) == ShiftN(c0, 8)
    {
      c := (c >> One) ^ (if (c & 1) == 1 then Polynomial else 0);
      j := j + 1;
    }
  }

  /** One iteration of the byte loop: `crc ^= byte`, then the bit loop. */
  method StepByte(c0: bv32, b: Byte) returns (c: bv32)
    ensures c == UpdateByte(c0, b)
  {
    c := ShiftByte(c0 ^ (b as bv32));
  }

  /** The register after one more byte. */
  lemma RegisterSnoc(c0: bv32, data: seq<Byte>, i: nat, c: bv32)
    requires i < |data|
    requires c == UpdateByte(Register(c0, data[..i]), data[i])
    ensures c == Register(c0, data[..i + 1])
  {
    assert data[..i + 1][..i] == data[..i];
  }

  /** `crc32`: the byte loop over a 32-bit register, complemented at the end. */
  method ComputeCrc32(data: seq<Byte>) returns (crc: nat)
    ensures crc == Crc32(data)
  {
    var c: bv32 := 0xFFFF_FFFF;
    var i := 0;
    while i < |data|
      invariant 0 <= i <= |data|
      invariant c == Register(0xFFFF_FFFF, data[..i])
    {
      c := StepByte(c, data[i]);
      RegisterSnoc(0xFFFF_FFFF, data, i, c);
      i := i + 1;
    }
    assert data[..i] == data;
    crc := (!c) as int;
  }

  // Big-endian integers

  /** `writeUInt32BE(n)`: the four bytes of the number `n`, most significant first. */
  function UInt32BE(n: nat): (r: seq<Byte>)
    requires n < WordLimit
    ensures |r| == 4
  {
    [(n / 0x100_0000) as Byte, (n / 0x1_0000 % 0x100) as Byte, (n / 0x100 % 0x100) as Byte, (n % 0x100) as Byte]
  }

  /** Reads four bytes as a big-endian unsigned number. */
  function ReadUInt32BE(s: seq<Byte>): (n: nat)
    requires |s| == 4
    ensures n < WordLimit
  {
    (s[0] as int) * 0x100_0000 + (s[1] as int) * 0x1_0000 + (s[2] as int) * 0x100 + (s[3] as int)
  }

  /** A number below 2^32 is the sum of its four base-256 digits. */
  lemma Digits(n: nat)
    requires n < WordLimit
    ensures n == (n / 0x100_0000) * 0x100_0000 + (n / 0x1_0000 % 0x100) * 0x1_0000 + (n / 0x100 % 0x100) * 0x100 + n % 0x100
    ensures n / 0x100_0000 < 0x100
  {
  }

  /** Writing then reading a 32-bit number gives it back. */
  lemma UInt32RoundTrip(n: nat)
    requires n < WordLimit
    ensures ReadUInt32BE(UInt32BE(n)) == n
  {
    Digits(n);
  }

  /** `buf.writeUInt32BE(value, offset)`. */
  method WriteUInt32BE(buf: array<Byte>, value: nat, offset: nat)
    requires value < WordLimit && offset + 4 <= buf.Length
    modifies buf
    ensures buf[..] == old(buf[..])[..offset] + UInt32BE(value) + old(buf[..])[offset + 4..]
  {
    var bytes := UInt32BE(value);
    buf[offset] := bytes[0];
    buf[offset + 1] := bytes[1];
    buf[offset + 2] := bytes[2];
    buf[offset + 3] := bytes[3];
  }

  // Chunks

  /** `createChunk(type, data)`: length, type, data, CRC of type and data (PNG specification, section 5.3). */
  function Chunk(chunkType: seq<Byte>, data: seq<Byte>): (r: seq<Byte>)
    requires |data| < WordLimit
    ensures |chunkType| == 4 ==> |r| == 12 + |data|
  {
    UInt32BE(|data|) + chunkType + data + UInt32BE(Crc32(chunkType + data))
  }

  /** `createChunk`: allocates the length and CRC buffers, writes them, and concatenates. */
  method CreateChunk(chunkType: seq<Byte>, data: seq<Byte>) returns (chunk: seq<Byte>)
    requires |data| < WordLimit
    ensures chunk == Chunk(chunkType, data)
  {
    var length := new Byte[4](_ => 0);
    WriteUInt32BE(length, |data|, 0);
    var crcValue := ComputeCrc32(chunkType + data);
    var crc := new Byte[4](_ => 0);
    WriteUInt32BE(crc, crcValue, 0);
    chunk := length[..] + chunkType + data + crc[..];
  }

  /** A chunk as a reader sees it. */
  datatype ChunkView = ChunkView(chunkType: seq<Byte>, data: seq<Byte>)

  /** Reads one chunk off the front of `s`, checking its CRC; `None` when it is cut short or corrupt. */
  function ReadChunk(s: seq<Byte>): Option<(ChunkView, seq<Byte>)>
  {
    if |s| < 12 then None
    else
      var n := ReadUInt32BE(s[..4]);
      if |s| < 12 + n then None
      else
        var t := s[4..8];
        var d := s[8..8 + n];
        if ReadUInt32BE(s[8 + n..12 + n]) != Crc32(t + d) then None
        else Some((ChunkView(t, d), s[12 + n..]))
  }

  /** A written chunk reads back as its type and data, whatever follows it. */
  lemma ReadChunkOf(chunkType: seq<Byte>, data: seq<Byte>, rest: seq<Byte>)
    requires |chunkType| == 4 && |data| < WordLimit
    ensures ReadChunk(Chunk(chunkType, data) + rest) == Some((ChunkView(chunkType, data), rest))
  {
    var s := Chunk(chunkType, data) + rest;
    var n := |data|;
    var len := UInt32BE(n);
    var crc := UInt32BE(Crc32(chunkType + data));
    assert s == len + chunkType + data + crc + rest;
    assert s[..4] == len;
    UInt32RoundTrip(n);
    assert s[4..8] == chunkType;
    assert s[8..8 + n] == data;
    assert s[8 + n..12 + n] == crc;
    UInt32RoundTrip(Crc32(chunkType + data));
    assert s[12 + n..] == rest;
  }

  // The image

  const Width := 1200
  const Height := 630

  /** The chunk types, as bytes. */
  const IhdrType: seq<Byte> := [73, 72, 68, 82]
  const IdatType: seq<Byte> := [73, 68, 65, 84]
  const IendType: seq<Byte> := [73, 69, 78, 68]

  /** The 13 IHDR bytes (PNG specification, section 11.2.2): width, height, bit depth 8, colour type 2 (truecolour), compression, filter and interlace 0. */
  function IhdrData(w: nat, h: nat): (r: seq<Byte>)
    requires w < WordLimit && h < WordLimit
    ensures |r| == 13
  {
    UInt32BE(w) + UInt32BE(h) + [8, 2, 0, 0, 0]
  }

  /** The header fields read back from the IHDR bytes. */
  lemma IhdrFields(w: nat, h: nat)
    requires w < WordLimit && h < WordLimit
    ensures var r := IhdrData(w, h);
      ReadUInt32BE(r[..4]) == w && ReadUInt32BE(r[4..8]) == h &&
      r[8] == 8 && r[9] == 2 && r[10] == 0 && r[11] == 0 && r[12] == 0
  {
    var r := IhdrData(w, h);
    assert r[..4] == UInt32BE(w) && r[4..8] == UInt32BE(h);
    UInt32RoundTrip(w);
    UInt32RoundTrip(h);
  }

  /** The IHDR buffer: thirteen zero bytes, the two dimensions written, then the bit depth and colour type set. */
  method BuildIhdr(w: nat, h: nat) returns (ihdr: seq<Byte>)
    requires w < WordLimit && h < WordLimit
    ensures ihdr == IhdrData(w, h)
  {
    var buf := new Byte[13](_ => 0);
    WriteUInt32BE(buf, w, 0);
    WriteUInt32BE(buf, h, 4);
    ghost var words := buf[..8];
    assert words == UInt32BE(w) + UInt32BE(h);
    buf[8] := 8;
    buf[9] := 2;
    buf[10] := 0;
    buf[11] := 0;
    buf[12] := 0;
    assert buf[..] == words + [8, 2, 0, 0, 0];
    ihdr := buf[..];
  }

  /** Multiplication by a natural number keeps order. */
  lemma MulMonotone(a: nat, b: nat, h: nat)
    requires a <= b
    ensures a * h <= b * h
  {
  }

  /** `a / h` grows with `a`. */
  lemma DivMonotone(a: nat, b: nat, h: nat)
    requires h > 0 && a <= b
    ensures a / h <= b / h
  {
    if a / h > b / h {
      MulMonotone(b / h + 1, a / h, h);
      assert false;
    }
  }

  /** `k * y / h` stays below `k` for a row index below the height. */
  lemma ScaledBelow(k: nat, y: nat, h: nat)
    requires y < h
    ensures k * y / h < k || k == 0
  {
    if k > 0 && k * y / h >= k {
      MulMonotone(k, k * y / h, h);
      MulMonotone(y + 1, h, k);
      assert false;
    }
  }

  /** The red component of row `y`: `floor(10 + (y / height) * 20)`, in integer arithmetic. */
  function Red(y: nat, h: nat): (r: nat)
    requires y < h
    ensures 10 <= r <= 29
  {
    ScaledBelow(20, y, h);
    10 + 20 * y / h
  }

  /** The green component: `floor(10 + (y / height) * 15)`. */
  function Green(y: nat, h: nat): (g: nat)
    requires y < h
    ensures 10 <= g <= 24
  {
    ScaledBelow(15, y, h);
    10 + 15 * y / h
  }

  /** The blue component: `floor(15 + (y / height) * 30)`. */
  function Blue(y: nat, h: nat): (b: nat)
    requires y < h
    ensures 15 <= b <= 44
  {
    ScaledBelow(30, y, h);
    15 + 30 * y / h
  }

  /** The gradient darkens nowhere: every component grows with the row index. */
  lemma GradientMonotone(y1: nat, y2: nat, h: nat)
    requires y1 <= y2 < h
    ensures Red(y1, h) <= Red(y2, h) && Green(y1, h) <= Green(y2, h) && Blue(y1, h) <= Blue(y2, h)
  {
    DivMonotone(20 * y1, 20 * y2, h);
    DivMonotone(15 * y1, 15 * y2, h);
    DivMonotone(30 * y1, 30 * y2, h);
  }

  /** The three bytes of a pixel of row `y`. */
  function Pixel(y: nat, h: nat): (p: seq<Byte>)
    requires y < h
    ensures |p| == 3
  {
    [Red(y, h) as Byte, Green(y, h) as Byte, Blue(y, h) as Byte]
  }

  /** `n` copies of the pixel `p`. */
  function PixelRun(p: seq<Byte>, n: nat): (r: seq<Byte>)
    requires |p| == 3
    ensures |r| == 3 * n
  {
    if n == 0 then [] else PixelRun(p, n - 1) + p
  }

  /** The length of a scanline of `w` pixels: the filter byte and three bytes a pixel. */
  function RowSize(w: nat): nat
  {
    1 + 3 * w
  }

  /** One scanline: filter type 0, then `w` pixels of the row's colour. */
  function Row(w: nat, y: nat, h: nat): (r: seq<Byte>)
    requires y < h
    ensures |r| == RowSize(w)
  {
    [0] + PixelRun(Pixel(y, h), w)
  }

  /** The first `n` scanlines. */
  function Rows(w: nat, h: nat, n: nat): seq<Byte>
    requires n <= h
  {
    if n == 0 then [] else Rows(w, h, n - 1) + Row(w, n - 1, h)
  }

  /** The inner loop: pushes the filter byte and the `w` pixels of row `y`. */
  method PushRow(w: nat, y: nat, h: nat, rowData0: seq<Byte>) returns (rowData: seq<Byte>)
    requires y < h
    ensures rowData == rowData0 + Row(w, y, h)
  {
    rowData := rowData0 + [0];
    var x := 0;
    while x < w
      invariant 0 <= x <= w
      invariant rowData == rowData0 + [0] + PixelRun(Pixel(y, h), x)
    {
      var r := Red(y, h) as Byte;
      var g := Green(y, h) as Byte;
      var b := Blue(y, h) as Byte;
      rowData := rowData + [r, g, b];
      x := x + 1;
    }
    assert rowData0 + [0] + PixelRun(Pixel(y, h), w) == rowData0 + ([0] + PixelRun(Pixel(y, h), w));
  }

  /** The scanline loops: `h` rows of a filter byte and `w` pixels. */
  method BuildRows(w: nat, h: nat) returns (rowData: seq<Byte>)
    ensures rowData == Rows(w, h, h)
  {
    rowData := [];
    var y := 0;
    while y < h
      invariant 0 <= y <= h
      invariant rowData == Rows(w, h, y)
    {
      rowData := PushRow(w, y, h, rowData);
      y := y + 1;
    }
  }

  /** Byte `3x + c` of a run of pixels is byte `c` of the pixel. */
  lemma {:induction false} PixelRunAt(p: seq<Byte>, n: nat, x: nat, c: nat)
    requires |p| == 3 && x < n && c < 3
    ensures 3 * x + c < |PixelRun(p, n)| && PixelRun(p, n)[3 * x + c] == p[c]
    decreases n
  {
    if x < n - 1 {
      PixelRunAt(p, n - 1, x, c);
    }
  }

  /** The offset of scanline `y`, counted row by row so that the proofs stay linear. */
  function Offset(y: nat, k: nat): (o: nat)
  {
    if y == 0 then 0 else Offset(y - 1, k) + k
  }

  lemma {:induction false} OffsetIsProduct(y: nat, k: nat)
    ensures Offset(y, k) == y * k
  {
    if y > 0 {
      OffsetIsProduct(y - 1, k);
    }
  }

  /** The first `n` scanlines take `n` row sizes. */
  lemma {:induction false} RowsLength(w: nat, h: nat, n: nat)
    requires n <= h
    ensures |Rows(w, h, n)| == Offset(n, RowSize(w))
    decreases n
  {
    if n > 0 {
      RowsLength(w, h, n - 1);
    }
  }

  /** Fewer scanlines are a prefix of more. */
  lemma {:induction false} RowsPrefix(w: nat, h: nat, m: nat, n: nat)
    requires m <= n <= h
    ensures Rows(w, h, m) <= Rows(w, h, n)
    decreases n
  {
    if m < n {
      RowsPrefix(w, h, m, n - 1);
    }
  }

  /** A block that follows a prefix of `big` sits right after it. */
  lemma SliceAfterPrefix(a: seq<Byte>, b: seq<Byte>, big: seq<Byte>)
    requires a + b <= big
    ensures |a| + |b| <= |big| && big[|a|..|a| + |b|] == b
  {
    assert big[|a|..|a| + |b|] == (a + b)[|a|..];
  }

  /** Scanline `y` sits at offset `Offset(y, RowSize(w))` of the first `n` scanlines. */
  lemma RowsAt(w: nat, h: nat, n: nat, y: nat)
    requires y < n <= h
    ensures Offset(y, RowSize(w)) + RowSize(w) <= |Rows(w, h, n)|
    ensures Rows(w, h, n)[Offset(y, RowSize(w))..Offset(y, RowSize(w)) + RowSize(w)] == Row(w, y, h)
  {
    var a := Rows(w, h, y);
    var b := Row(w, y, h);
    RowsPrefix(w, h, y + 1, n);
    assert Rows(w, h, y + 1) == a + b;
    RowsLength(w, h, y);
    SliceAfterPrefix(a, b, Rows(w, h, n));
  }

  /**
   * The raw image is `h` scanlines of `1 + 3w` bytes; every scanline starts
   * with filter type 0 and every pixel of row `y` has the row's colour.
   */
  lemma RawImageBytes(w: nat, h: nat, y: nat, x: nat, c: nat)
    requires y < h && x < w && c < 3
    ensures |Rows(w, h, h)| == h * RowSize(w)
    ensures Offset(y, RowSize(w)) == y * RowSize(w)
    ensures Offset(y, RowSize(w)) + RowSize(w) <= |Rows(w, h, h)|
    ensures Rows(w, h, h)[Offset(y, RowSize(w))] == 0
    ensures Rows(w, h, h)[Offset(y, RowSize(w)) + 1 + 3 * x + c] == Pixel(y, h)[c]
  {
    var k := RowSize(w);
    RowsLength(w, h, h);
    OffsetIsProduct(h, k);
    OffsetIsProduct(y, k);
    RowsAt(w, h, h, y);
    RowStart(w, h, y, x, c, Offset(y, k));
  }

  /** The bytes of one scanline, read at its offset in the raw image. */
  lemma RowStart(w: nat, h: nat, y: nat, x: nat, c: nat, start: nat)
    requires y < h && x < w && c < 3
    requires start + RowSize(w) <= |Rows(w, h, h)|
    requires Rows(w, h, h)[start..start + RowSize(w)] == Row(w, y, h)
    ensures Rows(w, h, h)[start] == 0
    ensures Rows(w, h, h)[start + 1 + 3 * x + c] == Pixel(y, h)[c]
  {
    var raw := Rows(w, h, h);
    var row := Row(w, y, h);
    PixelRunAt(Pixel(y, h), w, x, c);
    assert raw[start] == row[0];
    assert raw[start + 1 + 3 * x + c] == row[1 + 3 * x + c];
  }

  /** The file: signature, IHDR, IDAT with the compressed scanlines, and the empty IEND (PNG specification, section 11.2.5). */
  function PngOf(w: nat, h: nat, idat: seq<Byte>): (r: seq<Byte>)
    requires w < WordLimit && h < WordLimit && |idat| < WordLimit
    ensures |r| == 8 + 25 + 12 + |idat| + 12
    ensures r[..8] == Signature
  {
    Signature + Chunk(IhdrType, IhdrData(w, h)) + Chunk(IdatType, idat) + Chunk(IendType, [])
  }

  /** The last lines of the script: the three chunks created, then concatenated after the signature. */
  method AssemblePng(compressed: seq<Byte>) returns (png: seq<Byte>)
    requires |compressed| < WordLimit
    ensures png == PngOf(Width, Height, compressed)
  {
    var ihdr := BuildIhdr(Width, Height);
    var ihdrChunk := CreateChunk(IhdrType, ihdr);
    var idatChunk := CreateChunk(IdatType, compressed);
    var iendChunk := CreateChunk(IendType, []);
    png := Signature + ihdrChunk + idatChunk + iendChunk;
  }

  /** After the signature come the three chunks. */
  lemma PngBody(w: nat, h: nat, idat: seq<Byte>)
    requires w < WordLimit && h < WordLimit && |idat| < WordLimit
    ensures PngOf(w, h, idat)[8..] == Chunk(IhdrType, IhdrData(w, h)) + (Chunk(IdatType, idat) + Chunk(IendType, []))
  {
    DropHeader(Signature, Chunk(IhdrType, IhdrData(w, h)), Chunk(IdatType, idat), Chunk(IendType, []));
  }

  /** Dropping a header of eight bytes off four blocks leaves the last three. */
  lemma DropHeader(header: seq<Byte>, a: seq<Byte>, b: seq<Byte>, c: seq<Byte>)
    requires |header| == 8
    ensures (header + a + b + c)[8..] == a + (b + c)
  {
    assert header + a + b + c == header + (a + (b + c));
  }

  /** Read after the signature, the file is exactly the IHDR, IDAT and IEND chunks, in that order. */
  lemma ReadPng(w: nat, h: nat, idat: seq<Byte>)
    requires w < WordLimit && h < WordLimit && |idat| < WordLimit
    ensures var idatAndEnd := Chunk(IdatType, idat) + Chunk(IendType, []);
      ReadChunk(PngOf(w, h, idat)[8..]) == Some((ChunkView(IhdrType, IhdrData(w, h)), idatAndEnd)) &&
      ReadChunk(idatAndEnd) == Some((ChunkView(IdatType, idat), Chunk(IendType, []))) &&
      ReadChunk(Chunk(IendType, [])) == Some((ChunkView(IendType, []), []))
  {
    var b := Chunk(IdatType, idat);
    var c := Chunk(IendType, []);
    PngBody(w, h, idat);
    ReadChunkOf(IhdrType, IhdrData(w, h), b + c);
    ReadChunkOf(IdatType, idat, c);
    ReadChunkOf(IendType, [], []);
    assert c + [] == c;
  }

  /** The register after one byte, given the byte as a bit-vector and the register after the eight steps. */
  lemma UpdateByteValue(c: bv32, b: Byte, bits: bv32, r: bv32)
    requires b as bv32 == bits && ShiftN(c ^ bits, 8) == r
    ensures UpdateByte(c, b) == r
  {
  }

  /** The register after four bytes, from the register after each of them. */
  lemma RegisterFour(c0: bv32, t: seq<Byte>, r1: bv32, r2: bv32, r3: bv32, r4: bv32)
    requires |t| == 4
    requires UpdateByte(c0, t[0]) == r1 && UpdateByte(r1, t[1]) == r2
    requires UpdateByte(r2, t[2]) == r3 && UpdateByte(r3, t[3]) == r4
    ensures Register(c0, t) == r4
  {
    assert t[..3][..2] == t[..2] && t[..2][..1] == t[..1] && t[..1][..0] == [];
    assert Register(c0, t[..1]) == r1;
    assert Register(c0, t[..2]) == r2;
    assert Register(c0, t[..3]) == r3;
    assert t[..4] == t;
  }

  /** The register after `I`, the first byte of the IEND type. */
  lemma IendByte0()
    ensures UpdateByte(0xFFFF_FFFF, 73) == 0x22FD_E946
  {
    assert ShiftN(0xFFFF_FFB6, 8) == 0x22FD_E946;
    UpdateByteValue(0xFFFF_FFFF, 73, 0x49, 0x22FD_E946);
  }

  /** The register after `E`. */
  lemma IendByte1()
    ensures UpdateByte(0x22FD_E946, 69) == 0x992B_AC53
  {
    assert ShiftN(0x22FD_E903, 8) == 0x992B_AC53;
    UpdateByteValue(0x22FD_E946, 69, 0x45, 0x992B_AC53);
  }

  /** The register after `N`. */
  lemma IendByte2()
    ensures UpdateByte(0x992B_AC53, 78) == 0x639F_4775
  {
    assert ShiftN(0x992B_AC1D, 8) == 0x639F_4775;
    UpdateByteValue(0x992B_AC53, 78, 0x4E, 0x639F_4775);
  }

  /** The register after `D`. */
  lemma IendByte3()
    ensures UpdateByte(0x639F_4775, 68) == 0x51BD_9F7D
  {
    assert ShiftN(0x639F_4731, 8) == 0x51BD_9F7D;
    UpdateByteValue(0x639F_4775, 68, 0x44, 0x51BD_9F7D);
  }

  /** The register after the four bytes of `IEND`, as a CRC-32 reference implementation computes it. */
  lemma IendRegisterOf(t: seq<Byte>)
    requires |t| == 4 && t[0] == 73 && t[1] == 69 && t[2] == 78 && t[3] == 68
    ensures Register(0xFFFF_FFFF, t) == 0x51BD_9F7D
  {
    IendByte0();
    IendByte1();
    IendByte2();
    IendByte3();
    RegisterFour(0xFFFF_FFFF, t, 0x22FD_E946, 0x992B_AC53, 0x639F_4775, 0x51BD_9F7D);
  }

  /** The big-endian bytes of the IEND CRC. */
  lemma IendCrcBytes()
    ensures UInt32BE(0xAE42_6082) == [0xAE, 0x42, 0x60, 0x82]
  {
    var n := 0xAE42_6082;
    assert n / 0x100_0000 == 0xAE && n / 0x1_0000 % 0x100 == 0x42 && n / 0x100 % 0x100 == 0x60 && n % 0x100 == 0x82;
  }

  /** The CRC of the IEND type is 0xAE426082, so the IEND chunk is the well-known twelve bytes. */
  lemma IendChunkBytes()
    ensures Crc32(IendType) == 0xAE42_6082
    ensures Chunk(IendType, []) == [0, 0, 0, 0, 73, 69, 78, 68, 0xAE, 0x42, 0x60, 0x82]
  {
    IendRegisterOf(IendType);
    IendCrcBytes();
    assert UInt32BE(0) == [0, 0, 0, 0];
    assert IendType + [] == IendType;
  }
}
