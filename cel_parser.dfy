/** The version-4 binary CEL decoder (`CELParser._parse_cel_v4_intensities`)
    and the format dispatch of `CELParser.parse_intensities`. Every field of
    a version-4 file is little-endian; the counter `read[0]` is kept as in
    the Command Console decoder. */
module CelParser {
  import opened Common
  import opened Primitives
  import opened ByteStream
  import opened CommandConsole

  /** The entries of the one section of a tag/value block, in file order. */
  type Section = seq<(string, string)>

  /** What `ConfigParser(delimiters=(d,)).read_string(text)['Section']`
      gives: the section's entries, a ParsingError, or any other failure
      (a duplicate key, say), which is not caught. */
  datatype IniVerdict = IniOk(entries: Section) | IniSyntaxError | IniOtherError

  /** The configuration parser, as a function of the text and the one
      delimiter it is built with. */
  type Ini = (string, char) -> IniVerdict

  const V4Magic := 64
  const V4Version := 4
  const SectionHeader := "[Section]\n"

  /** `read_cell`: intensity, its standard deviation, the pixel count. */
  datatype Cell = Cell(intensity: Float32, stdev: Float32, pixels: int)

  /** `read_coords`. */
  datatype Coords = Coords(x: int, y: int)

  /** A corner of a sub-grid: two '<f'. */
  datatype Point = Point(x: Float32, y: Float32)

  /** The four corners, in the order `read_subgrid` reads them. */
  datatype Corners = Corners(upperLeft: Point, upperRight: Point, lowerLeft: Point, lowerRight: Point)

  /** The four edges: four '<i'. */
  datatype Bounds = Bounds(left: int, top: int, right: int, bottom: int)

  /** `read_subgrid`. */
  datatype Subgrid = Subgrid(numRows: int, numCols: int, corners: Corners, bounds: Bounds)

  /** The fields between the version number and the cells. */
  datatype V4Header = V4Header(
    numCols: int, numRows: int, numCells: int,
    header: Section, algorithm: seq<Byte>, algorithmParams: Section,
    cellMargin: int, numOutliers: int, numMasked: int, numSubgrids: int)

  /** Everything the decoder reads from a version-4 file. */
  datatype V4Cel = V4Cel(head: V4Header, cells: seq<Cell>, masked: seq<Coords>, outliers: seq<Coords>, subgrids: seq<Subgrid>)

  /** A float64 of the array `parse_intensities` returns, by what numpy made
      it from: a 32-bit integer or a 32-bit float, both converted exactly. */
  datatype Number = Whole(i: int) | Single(f: Float32)

  /** `c'` is `n` bytes past `c`, and the counter moved with it. */
  predicate Moved(c: Cursor, c': Cursor, n: nat) {
    c'.pos == c.pos + n && c'.count == c.count + n
  }

  // ---------------------------------------------------------------------
  // Tag/value blocks
  // ---------------------------------------------------------------------

  /** `read_tag_val` once the block is read: parse with '=' as the
      delimiter; on a ParsingError parse again with ':', the text split on
      ';' and joined into lines. A second failure is not caught. */
  function SectionOf(ini: Ini, text: string): Result<Section> {
    match ini(SectionHeader + text, '=')
    case IniOk(entries) => Ok(entries)
    case IniOtherError => Err(TagValueSyntax)
    case IniSyntaxError =>
      match ini(SectionHeader + Join(Split(text, ';'), '\n'), ':')
      case IniOk(entries) => Ok(entries)
      case _ => Err(TagValueSyntax)
  }

  /** The first parse decides unless it is a ParsingError; the second parse
      sees the text with every ';' turned into a line break and nothing
      else changed. */
  lemma TagValRetry(ini: Ini, text: string)
    ensures ini(SectionHeader + text, '=').IniOk? ==> SectionOf(ini, text) == Ok(ini(SectionHeader + text, '=').entries)
    ensures ini(SectionHeader + text, '=').IniOtherError? ==> SectionOf(ini, text) == Err(TagValueSyntax)
    ensures ini(SectionHeader + text, '=').IniSyntaxError? ==>
      var second := ini(SectionHeader + Replace(text, ';', '\n'), ':');
      SectionOf(ini, text) == if second.IniOk? then Ok(second.entries) else Err(TagValueSyntax)
  {
    JoinSplit(text, ';', '\n');
  }

  /** `read_tag_val`: a length-prefixed block of ISO-8859-1 text. */
  function TagValAt(data: seq<Byte>, c: Cursor, ini: Ini): (r: Result<Parsed<Section>>)
    requires Within(data, c)
    ensures r.Ok? ==> Tracked(data, c, r.value.rest) && r.value.rest.pos >= c.pos + 4
  {
    var raw :- RawAt(data, c, Little);
    var section :- SectionOf(ini, Latin1(raw.value));
    Ok(Parsed(section, raw.rest))
  }

  // ---------------------------------------------------------------------
  // Fixed-size records: each is read field by field, and fails as a whole
  // when the file ends inside it
  // ---------------------------------------------------------------------

  /** The unsigned value of the `w` bytes at p, least significant byte
      first, for the two field widths the format uses. */
  function LeUnsigned(data: seq<Byte>, p: nat, w: nat): nat
    requires (w == 2 || w == 4) && p + w <= |data|
  {
    if w == 2 then data[p] as int + 0x100 * (data[p + 1] as int)
    else data[p] as int + 0x100 * (data[p + 1] as int) + 0x1_0000 * (data[p + 2] as int) + 0x100_0000 * (data[p + 3] as int)
  }

  /** `LeUnsigned` is the little-endian value of the slice. */
  lemma LeUnsignedSlice(data: seq<Byte>, p: nat, w: nat)
    requires (w == 2 || w == 4) && p + w <= |data|
    ensures Unsigned(Little, data[p .. p + w]) == LeUnsigned(data, p, w)
  {
    var b0 := data[p .. p + w];
    var b1 := b0[1..];
    var b2 := b1[1..];
    assert b1[0] == data[p + 1];
    if w == 2 {
      assert LittleEndian(b2) == 0;
    } else {
      var b3 := b2[1..];
      var b4 := b3[1..];
      assert b2[0] == data[p + 2] && b3[0] == data[p + 3];
      assert LittleEndian(b4) == 0;
      assert LittleEndian(b3) == b3[0] + 256 * LittleEndian(b4);
      assert LittleEndian(b2) == b2[0] + 256 * LittleEndian(b3);
    }
    assert LittleEndian(b1) == b1[0] + 256 * LittleEndian(b2);
  }

  /** The '<i', '<I' or '<h' field at byte p. */
  function LeInt(data: seq<Byte>, p: nat, k: IntKind): int
    requires Width(k) >= 2 && p + Width(k) <= |data|
  {
    var u := LeUnsigned(data, p, Width(k));
    if IsSigned(k) && 2 * u >= Modulus(k) then u - Modulus(k) else u
  }

  /** The '<f' field at byte p. */
  function LeFloat(data: seq<Byte>, p: nat): Float32
    requires p + 4 <= |data|
  {
    Float32(LeUnsigned(data, p, 4))
  }

  /** What the stream's integer reader decodes at c is `LeInt`. */
  lemma LeIntAt(data: seq<Byte>, c: Cursor, k: IntKind)
    requires Width(k) >= 2 && c.pos + Width(k) <= |data|
    ensures IntAt(data, c, Little, k).Ok?
    ensures IntAt(data, c, Little, k).value.value == LeInt(data, c.pos, k)
  {
    IntAtSlice(data, c, Little, k);
    LeUnsignedSlice(data, c.pos, Width(k));
  }

  /** What the stream's float reader decodes at c is `LeFloat`. */
  lemma LeFloatAt(data: seq<Byte>, c: Cursor)
    requires c.pos + 4 <= |data|
    ensures FloatAt(data, c, Little).Ok?
    ensures FloatAt(data, c, Little).value.value == LeFloat(data, c.pos)
  {
    FloatAtSlice(data, c, Little);
    LeUnsignedSlice(data, c.pos, 4);
  }

  /** The magic number 64 and the version number 4, both '<i'. */
  function SignatureAt(data: seq<Byte>, c: Cursor): (r: Result<Parsed<()>>)
    ensures r.Ok? ==> Moved(c, r.value.rest, 8)
  {
    if c.pos + 4 > |data| then Err(Truncated)
    else if LeInt(data, c.pos, I32) != V4Magic then Err(BadMagic(LeInt(data, c.pos, I32)))
    else if c.pos + 8 > |data| then Err(Truncated)
    else if LeInt(data, c.pos + 4, I32) != V4Version then Err(BadVersion(LeInt(data, c.pos + 4, I32)))
    else Ok(Parsed((), Advance(c, 8)))
  }

  /** A '<i' field holds `v` exactly when its bytes are the little-endian
      encoding of `v`. */
  lemma LeIntIs(data: seq<Byte>, p: nat, v: int)
    requires p + 4 <= |data| && InRange(I32, v)
    ensures LeInt(data, p, I32) == v <==> data[p .. p + 4] == Encode(Little, I32, v)
  {
    LeUnsignedSlice(data, p, 4);
    EncodeDecode(Little, I32, data[p .. p + 4]);
    DecodeEncode(Little, I32, v);
  }

  /** The file bytes of the magic number and of the version number. */
  lemma SignatureBytes()
    ensures Encode(Little, I32, V4Magic) == [64, 0, 0, 0]
    ensures Encode(Little, I32, V4Version) == [4, 0, 0, 0]
  {
    assert BigEndianBytes(64, 4) == [0, 0, 0, 64];
    assert BigEndianBytes(4, 4) == [0, 0, 0, 4];
  }

  /** A version-4 file is recognised by its first eight bytes and by
      nothing else. */
  lemma V4Signature(data: seq<Byte>, c: Cursor)
    ensures SignatureAt(data, c).Ok? <==> c.pos + 8 <= |data| && data[c.pos .. c.pos + 8] == [64, 0, 0, 0, 4, 0, 0, 0]
  {
    SignatureBytes();
    if c.pos + 8 <= |data| {
      LeIntIs(data, c.pos, V4Magic);
      LeIntIs(data, c.pos + 4, V4Version);
      var word, head := data[c.pos .. c.pos + 8], [64, 0, 0, 0, 4, 0, 0, 0];
      assert word == data[c.pos .. c.pos + 4] + data[c.pos + 4 .. c.pos + 8];
      assert head == [64, 0, 0, 0] + [4, 0, 0, 0];
      assert word == head ==> data[c.pos .. c.pos + 4] == word[..4] == head[..4];
      assert word == head ==> data[c.pos + 4 .. c.pos + 8] == word[4..] == head[4..];
    }
  }

  /** `read_cell`: two '<f' and one '<h', ten bytes in all. */
  function CellOf(data: seq<Byte>, p: nat): Cell
    requires p + 10 <= |data|
  {
    Cell(LeFloat(data, p), LeFloat(data, p + 4), LeInt(data, p + 8, I16))
  }

  /** `read_coords`: two '<h', four bytes. */
  function CoordsOf(data: seq<Byte>, p: nat): Coords
    requires p + 4 <= |data|
  {
    Coords(LeInt(data, p, I16), LeInt(data, p + 2, I16))
  }

  function PointOf(data: seq<Byte>, p: nat): Point
    requires p + 8 <= |data|
  {
    Point(LeFloat(data, p), LeFloat(data, p + 4))
  }

  function CornersOf(data: seq<Byte>, p: nat): Corners
    requires p + 32 <= |data|
  {
    Corners(PointOf(data, p), PointOf(data, p + 8), PointOf(data, p + 16), PointOf(data, p + 24))
  }

  function BoundsOf(data: seq<Byte>, p: nat): Bounds
    requires p + 16 <= |data|
  {
    Bounds(LeInt(data, p, I32), LeInt(data, p + 4, I32), LeInt(data, p + 8, I32), LeInt(data, p + 12, I32))
  }

  /** `read_subgrid`: two '<i', eight '<f', four '<i', 56 bytes. */
  function SubgridOf(data: seq<Byte>, p: nat): Subgrid
    requires p + 56 <= |data|
  {
    Subgrid(LeInt(data, p, I32), LeInt(data, p + 4, I32), CornersOf(data, p + 8), BoundsOf(data, p + 40))
  }

  /** Each record read at the cursor: all of it, or failure when the file
      ends inside it. */
  function CellAt(data: seq<Byte>, c: Cursor): Result<Parsed<Cell>> {
    if c.pos + 10 > |data| then Err(Truncated) else Ok(Parsed(CellOf(data, c.pos), Advance(c, 10)))
  }

  function CoordsAt(data: seq<Byte>, c: Cursor): Result<Parsed<Coords>> {
    if c.pos + 4 > |data| then Err(Truncated) else Ok(Parsed(CoordsOf(data, c.pos), Advance(c, 4)))
  }

  function PointAt(data: seq<Byte>, c: Cursor): Result<Parsed<Point>> {
    if c.pos + 8 > |data| then Err(Truncated) else Ok(Parsed(PointOf(data, c.pos), Advance(c, 8)))
  }

  function CornersAt(data: seq<Byte>, c: Cursor): Result<Parsed<Corners>> {
    if c.pos + 32 > |data| then Err(Truncated) else Ok(Parsed(CornersOf(data, c.pos), Advance(c, 32)))
  }

  function BoundsAt(data: seq<Byte>, c: Cursor): Result<Parsed<Bounds>> {
    if c.pos + 16 > |data| then Err(Truncated) else Ok(Parsed(BoundsOf(data, c.pos), Advance(c, 16)))
  }

  function SubgridAt(data: seq<Byte>, c: Cursor): Result<Parsed<Subgrid>> {
    if c.pos + 56 > |data| then Err(Truncated) else Ok(Parsed(SubgridOf(data, c.pos), Advance(c, 56)))
  }

  /** Number of columns, of rows and of cells: three '<i'. */
  function DimensionsAt(data: seq<Byte>, c: Cursor): Result<Parsed<(int, int, int)>> {
    if c.pos + 12 > |data| then Err(Truncated)
    else Ok(Parsed((LeInt(data, c.pos, I32), LeInt(data, c.pos + 4, I32), LeInt(data, c.pos + 8, I32)), Advance(c, 12)))
  }

  /** Cell margin and the numbers of outlier cells, masked cells and
      sub-grids: '<i', two '<I', '<i'. */
  function CountsAt(data: seq<Byte>, c: Cursor): Result<Parsed<(int, int, int, int)>> {
    if c.pos + 16 > |data| then Err(Truncated)
    else Ok(Parsed((LeInt(data, c.pos, I32), LeInt(data, c.pos + 4, U32), LeInt(data, c.pos + 8, U32), LeInt(data, c.pos + 12, I32)), Advance(c, 16)))
  }

  // ---------------------------------------------------------------------
  // The loops, each as it runs: with `left` iterations to go, after the
  // values in `acc` were appended, stopping at the first record that
  // cannot be read. Each is proved to read a block of records stored back
  // to back. The loops take the record reader (`read_cell`, `read_coords`,
  // `read_subgrid`) and its record size as parameters.
  // ---------------------------------------------------------------------

  /** `read` decodes a record of `width` bytes wherever one fits. */
  ghost predicate Reader<T>(read: (seq<Byte>, nat) --> T, width: nat, data: seq<Byte>) {
    forall q: nat :: q + width <= |data| ==> read.requires(data, q)
  }

  lemma MulSucc(a: nat, b: nat)
    ensures a * (b + 1) == a + a * b
  {
  }

  lemma AppendAssoc<T>(a: seq<T>, b: seq<T>, c: seq<T>)
    ensures (a + b) + c == a + (b + c)
  {
  }

  /** The n records stored one after the other from byte p on. */
  function Block<T>(read: (seq<Byte>, nat) --> T, width: nat, data: seq<Byte>, p: nat, n: nat): (r: seq<T>)
    requires Reader(read, width, data) && p + width * n <= |data|
    ensures |r| == n
    decreases n
  {
    if n == 0 then []
    else
      MulSucc(width, n - 1);
      [read(data, p)] + Block(read, width, data, p + width, n - 1)
  }

  /** Record k of a block is the one at byte width * k of it. */
  lemma {:induction false} BlockAt<T>(read: (seq<Byte>, nat) --> T, width: nat, data: seq<Byte>, p: nat, n: nat, k: nat)
    requires Reader(read, width, data) && p + width * n <= |data| && k < n
    ensures p + width * k + width <= |data|
    ensures Block(read, width, data, p, n)[k] == read(data, p + width * k)
    decreases n
  {
    MulSucc(width, n - 1);
    if k > 0 {
      BlockAt(read, width, data, p + width, n - 1, k - 1);
      MulSucc(width, k - 1);
    }
  }

  /** Two blocks back to back are one block. */
  lemma {:induction false} BlockAppend<T>(read: (seq<Byte>, nat) --> T, width: nat, data: seq<Byte>, p: nat, a: nat, b: nat)
    requires Reader(read, width, data) && p + width * (a + b) <= |data|
    ensures p + width * a + width * b <= |data|
    ensures Block(read, width, data, p, a) + Block(read, width, data, p + width * a, b) == Block(read, width, data, p, a + b)
    decreases a
  {
    assert width * (a + b) == width * a + width * b;
    if a > 0 {
      MulSucc(width, a - 1);
      MulSucc(width, a - 1 + b);
      BlockAppend(read, width, data, p + width, a - 1, b);
      AppendAssoc([read(data, p)], Block(read, width, data, p + width, a - 1), Block(read, width, data, p + width * a, b));
    }
  }

  /** `for i in range(n): xs.append(read(fh))`, with `left` iterations to
      go. */
  function RecordsFrom<T>(read: (seq<Byte>, nat) --> T, width: nat, data: seq<Byte>, left: nat, acc: Parsed<seq<T>>): (r: Result<Parsed<seq<T>>>)
    requires Reader(read, width, data) && Within(data, acc.rest)
    ensures r.Ok? <==> acc.rest.pos + width * left <= |data|
    ensures r.Err? ==> r.error == Truncated
    ensures r.Ok? ==> Moved(acc.rest, r.value.rest, width * left)
    ensures r.Ok? ==> r.value.value == acc.value + Block(read, width, data, acc.rest.pos, left)
    decreases left
  {
    if left == 0 then
      Ok(acc)
    else if acc.rest.pos + width > |data| then
      MulSucc(width, left - 1);
      Err(Truncated)
    else
      MulSucc(width, left - 1);
      var r := RecordsFrom(read, width, data, left - 1, Parsed(acc.value + [read(data, acc.rest.pos)], Advance(acc.rest, width)));
      if r.Ok? then
        AppendAssoc(acc.value, [read(data, acc.rest.pos)], Block(read, width, data, acc.rest.pos + width, left - 1));
        r
      else
        r
  }

  /** One iteration of the loop: a record read, or the end of the file. */
  lemma RecordsStep<T>(read: (seq<Byte>, nat) --> T, width: nat, data: seq<Byte>, left: nat, acc: Parsed<seq<T>>)
    requires Reader(read, width, data) && Within(data, acc.rest) && left > 0
    ensures acc.rest.pos + width > |data| ==> RecordsFrom(read, width, data, left, acc) == Err(Truncated)
    ensures acc.rest.pos + width <= |data| ==>
      RecordsFrom(read, width, data, left, acc) == RecordsFrom(read, width, data, left - 1, Parsed(acc.value + [read(data, acc.rest.pos)], Advance(acc.rest, width)))
  {
  }

  /** The bytes taken by `left` columns of `rows` cells. */
  function ColumnsSize(rows: nat, left: nat): nat {
    if left == 0 then 0 else 10 * rows + ColumnsSize(rows, left - 1)
  }

  /** `left` columns of `rows` cells, stored one after the other from byte
      p on. */
  function ColumnsBlock(cell: (seq<Byte>, nat) --> Cell, data: seq<Byte>, p: nat, rows: nat, left: nat): seq<Cell>
    requires Reader(cell, 10, data) && p + ColumnsSize(rows, left) <= |data|
    decreases left
  {
    if left == 0 then [] else Block(cell, 10, data, p, rows) + ColumnsBlock(cell, data, p + 10 * rows, rows, left - 1)
  }

  /** The columns of a cell block, read one after the other, are one flat
      block of rows * left cells: the nested loops read the cells in file
      order. */
  lemma {:induction false} ColumnsFlat(cell: (seq<Byte>, nat) --> Cell, data: seq<Byte>, p: nat, rows: nat, left: nat)
    requires Reader(cell, 10, data)
    ensures ColumnsSize(rows, left) == 10 * (rows * left)
    ensures p + ColumnsSize(rows, left) <= |data| ==> ColumnsBlock(cell, data, p, rows, left) == Block(cell, 10, data, p, rows * left)
    decreases left
  {
    if left > 0 {
      ColumnsFlat(cell, data, p + 10 * rows, rows, left - 1);
      MulSucc(rows, left - 1);
      if p + ColumnsSize(rows, left) <= |data| {
        BlockAppend(cell, 10, data, p, rows, rows * (left - 1));
      }
    }
  }

  /** The outer loop `for j in range(num_cols)`, with `left` columns
      still to read, each read by the inner loop `for i in
      range(num_rows)`. */
  function CellsFrom(cell: (seq<Byte>, nat) --> Cell, data: seq<Byte>, left: nat, rows: nat, acc: Parsed<seq<Cell>>): (r: Result<Parsed<seq<Cell>>>)
    requires Reader(cell, 10, data) && Within(data, acc.rest)
    ensures r.Ok? <==> acc.rest.pos + ColumnsSize(rows, left) <= |data|
    ensures r.Err? ==> r.error == Truncated
    ensures r.Ok? ==> Moved(acc.rest, r.value.rest, ColumnsSize(rows, left))
    decreases left
  {
    if left == 0 then
      Ok(acc)
    else
      var column :- RecordsFrom(cell, 10, data, rows, acc);
      CellsFrom(cell, data, left - 1, rows, column)
  }

  /** The outer loop appends the columns it reads, in file order. */
  lemma {:induction false} CellsFromBlock(cell: (seq<Byte>, nat) --> Cell, data: seq<Byte>, left: nat, rows: nat, acc: Parsed<seq<Cell>>)
    requires Reader(cell, 10, data) && Within(data, acc.rest) && CellsFrom(cell, data, left, rows, acc).Ok?
    ensures CellsFrom(cell, data, left, rows, acc).value.value == acc.value + ColumnsBlock(cell, data, acc.rest.pos, rows, left)
    decreases left
  {
    if left > 0 {
      var column := RecordsFrom(cell, 10, data, rows, acc).value;
      CellsFromBlock(cell, data, left - 1, rows, column);
      AppendAssoc(acc.value, Block(cell, 10, data, acc.rest.pos, rows), ColumnsBlock(cell, data, column.rest.pos, rows, left - 1));
    }
  }

  // ---------------------------------------------------------------------
  // The whole file
  // ---------------------------------------------------------------------

  /** The fields after the version number, up to the number of sub-grids. */
  function V4HeaderAt(data: seq<Byte>, c: Cursor, ini: Ini): (r: Result<Parsed<V4Header>>)
    requires Within(data, c)
    ensures r.Ok? ==> Tracked(data, c, r.value.rest)
  {
    var dims :- DimensionsAt(data, c);
    var header :- TagValAt(data, dims.rest, ini);
    var algorithm :- RawAt(data, header.rest, Little);
    var params :- TagValAt(data, algorithm.rest, ini);
    var counts :- CountsAt(data, params.rest);
    var (cols, rows, cells) := dims.value;
    var (margin, outliers, masked, subgrids) := counts.value;
    Ok(Parsed(V4Header(cols, rows, cells, header.value, algorithm.value, params.value,
                       margin, outliers, masked, subgrids), counts.rest))
  }

  /** The header starts with the numbers of columns, of rows and of cells,
      in that order. */
  lemma V4HeaderDims(data: seq<Byte>, c: Cursor, ini: Ini)
    requires Within(data, c) && V4HeaderAt(data, c, ini).Ok?
    ensures c.pos + 12 <= |data|
    ensures var h := V4HeaderAt(data, c, ini).value.value;
            && h.numCols == LeInt(data, c.pos, I32)
            && h.numRows == LeInt(data, c.pos + 4, I32)
            && h.numCells == LeInt(data, c.pos + 8, I32)
  {
    var dims := DimensionsAt(data, c).value;
    var header := TagValAt(data, dims.rest, ini).value;
    var algorithm := RawAt(data, header.rest, Little).value;
    var params := TagValAt(data, algorithm.rest, ini).value;
    var counts := CountsAt(data, params.rest).value;
    assert V4HeaderAt(data, c, ini).value.value
        == V4Header(dims.value.0, dims.value.1, dims.value.2, header.value, algorithm.value, params.value,
                    counts.value.0, counts.value.1, counts.value.2, counts.value.3);
  }

  /** The last sixteen bytes of the header hold the cell margin, the
      outlier count, the masked count and the sub-grid count, in that
      order, the two middle ones unsigned. */
  lemma V4HeaderCounts(data: seq<Byte>, c: Cursor, ini: Ini)
    requires Within(data, c) && V4HeaderAt(data, c, ini).Ok?
    ensures var h := V4HeaderAt(data, c, ini).value;
            && c.pos + 12 + 16 <= h.rest.pos <= |data|
            && h.value.cellMargin == LeInt(data, h.rest.pos - 16, I32)
            && h.value.numOutliers == LeInt(data, h.rest.pos - 12, U32)
            && h.value.numMasked == LeInt(data, h.rest.pos - 8, U32)
            && h.value.numSubgrids == LeInt(data, h.rest.pos - 4, I32)
  {
    var dims := DimensionsAt(data, c).value;
    var header := TagValAt(data, dims.rest, ini).value;
    var algorithm := RawAt(data, header.rest, Little).value;
    var params := TagValAt(data, algorithm.rest, ini).value;
    assert V4HeaderAt(data, c, ini).value.rest == Advance(params.rest, 16);
  }

  /** `num_cols * num_rows`, a negative count standing for none. */
  function CellCount(h: V4Header): nat {
    Times(h.numRows) * Times(h.numCols)
  }

  /** What follows the header: the cells column by column, the masked
      cells, the outlier cells and the sub-grids, as many as the header
      says, stored back to back. The declared number of cells is not
      compared with anything. */
  function V4BodyAt(data: seq<Byte>, c: Cursor, h: V4Header): Result<Parsed<V4Cel>>
    requires Within(data, c)
  {
    BlocksAt(data, c, h, Times(h.numCols), Times(h.numRows), Times(h.numMasked), Times(h.numOutliers), Times(h.numSubgrids))
  }

  /** The four blocks after the header, given their sizes. */
  function BlocksAt(data: seq<Byte>, c: Cursor, h: V4Header, cols: nat, rows: nat, masked: nat, outliers: nat, subgrids: nat): (r: Result<Parsed<V4Cel>>)
    requires Within(data, c)
    ensures
      var size := ColumnsSize(rows, cols) + 4 * masked + 4 * outliers + 56 * subgrids;
      && (r.Ok? <==> c.pos + size <= |data|)
      && (r.Err? ==> r.error == Truncated)
      && (r.Ok? ==>
            && Moved(c, r.value.rest, size)
            && r.value.value.head == h
            && r.value.value.cells == ColumnsBlock(CellOf, data, c.pos, rows, cols))
  {
    var cellBlock :- CellsFrom(CellOf, data, cols, rows, Parsed([], c));
    CellsFromBlock(CellOf, data, cols, rows, Parsed([], c));
    MaskedAt(data, cellBlock.rest, h, cellBlock.value, masked, outliers, subgrids)
  }

  /** The masked cells and what follows them. */
  function MaskedAt(data: seq<Byte>, c: Cursor, h: V4Header, cells: seq<Cell>, masked: nat, outliers: nat, subgrids: nat): (r: Result<Parsed<V4Cel>>)
    requires Within(data, c)
    ensures
      var size := 4 * masked + 4 * outliers + 56 * subgrids;
      && (r.Ok? <==> c.pos + size <= |data|)
      && (r.Err? ==> r.error == Truncated)
      && (r.Ok? ==>
            && Moved(c, r.value.rest, size)
            && r.value.value.head == h
            && r.value.value.cells == cells
            && |r.value.value.masked| == masked)
  {
    var maskedBlock :- RecordsFrom(CoordsOf, 4, data, masked, Parsed([], c));
    OutliersAt(data, maskedBlock.rest, h, cells, maskedBlock.value, outliers, subgrids)
  }

  /** The outlier cells and the sub-grids after them. */
  function OutliersAt(data: seq<Byte>, c: Cursor, h: V4Header, cells: seq<Cell>, masked: seq<Coords>, outliers: nat, subgrids: nat): (r: Result<Parsed<V4Cel>>)
    requires Within(data, c)
    ensures
      var size := 4 * outliers + 56 * subgrids;
      && (r.Ok? <==> c.pos + size <= |data|)
      && (r.Err? ==> r.error == Truncated)
      && (r.Ok? ==>
            && Moved(c, r.value.rest, size)
            && r.value.value.head == h
            && r.value.value.cells == cells
            && r.value.value.masked == masked
            && |r.value.value.outliers| == outliers
            && |r.value.value.subgrids| == subgrids)
  {
    var outlierBlock :- RecordsFrom(CoordsOf, 4, data, outliers, Parsed([], c));
    var subgridBlock :- RecordsFrom(SubgridOf, 56, data, subgrids, Parsed([], outlierBlock.rest));
    Ok(Parsed(V4Cel(h, cells, masked, outlierBlock.value, subgridBlock.value), subgridBlock.rest))
  }

  /** The decoder of `_parse_cel_v4_intensities` on the bytes of a file. */
  function V4At(data: seq<Byte>, ini: Ini): (r: Result<Parsed<V4Cel>>)
    ensures r.Ok? ==> SignatureAt(data, Start).Ok?
    ensures r.Ok? ==> V4HeaderAt(data, Advance(Start, 8), ini).Ok?
    ensures r.Ok? ==>
      var head := V4HeaderAt(data, Advance(Start, 8), ini).value;
      V4BodyAt(data, head.rest, head.value) == r
  {
    var sig :- SignatureAt(data, Start);
    var head :- V4HeaderAt(data, sig.rest, ini);
    V4BodyAt(data, head.rest, head.value)
  }

  /** `[c[0] for c in cells]`. */
  function Intensities(cells: seq<Cell>): (r: seq<Float32>)
    ensures |r| == |cells| && forall k :: 0 <= k < |cells| ==> r[k] == cells[k].intensity
  {
    seq(|cells|, k requires 0 <= k < |cells| => cells[k].intensity)
  }

  /** What `_parse_cel_v4_intensities` returns. */
  function V4Intensities(data: seq<Byte>, ini: Ini): Result<seq<Float32>> {
    var cel :- V4At(data, ini);
    Ok(Intensities(cel.value.cells))
  }

  /** Intensity k of a version-4 file is the little-endian float at byte
      10k of the cell block: the cells are stored column after column, ten
      bytes each, num_cols * num_rows of them. */
  lemma V4BodyIntensities(data: seq<Byte>, c: Cursor, h: V4Header, k: nat)
    requires Within(data, c) && V4BodyAt(data, c, h).Ok?
    requires k < |V4BodyAt(data, c, h).value.value.cells|
    ensures |V4BodyAt(data, c, h).value.value.cells| == CellCount(h)
    ensures c.pos + 10 * k + 10 <= |data|
    ensures Intensities(V4BodyAt(data, c, h).value.value.cells)[k] == LeFloat(data, c.pos + 10 * k)
  {
    ColumnsFlat(CellOf, data, c.pos, Times(h.numRows), Times(h.numCols));
    BlockAt(CellOf, 10, data, c.pos, CellCount(h), k);
  }

  // ---------------------------------------------------------------------
  // Format dispatch
  // ---------------------------------------------------------------------

  /** `v` is a value numpy converts to a float. */
  predicate Numeric(v: Value) {
    v.Int? || v.Real?
  }

  function AsNumber(v: Value): Number
    requires Numeric(v)
  {
    if v.Int? then Whole(v.i) else Single(v.f)
  }

  /** `np.float64(rows)` makes a matrix: at least one row, rows of one
      length, every value numeric. */
  predicate IsNumericMatrix(rows: seq<seq<Value>>) {
    && |rows| > 0
    && (forall i :: 0 <= i < |rows| ==> |rows[i]| == |rows[0]|)
    && (forall i, j :: 0 <= i < |rows| && 0 <= j < |rows[i]| ==> Numeric(rows[i][j]))
  }

  /** `np.float64(ds.data)[:, 0]`: the first column as floats; an empty
      data set is one-dimensional and a data set without columns has no
      column 0, and both fail. */
  function FirstColumn(rows: seq<seq<Value>>): (r: Result<seq<Number>>)
    ensures r.Ok? ==> |r.value| == |rows|
  {
    if !IsNumericMatrix(rows) || |rows[0]| == 0 then Err(NotAMatrix)
    else Ok(seq(|rows|, i requires 0 <= i < |rows| => AsNumber(rows[i][0])))
  }

  /** A numeric column type: one of the integer kinds or the float. */
  predicate NumericColumn(col: Column) {
    ColumnKindOf(col.valueType).Some? && (ColumnKindOf(col.valueType).value.IntColumn? || ColumnKindOf(col.valueType).value == FloatColumn)
  }

  /** On rows read as `cols` declares, the first column can be taken
      exactly when there is a row, there is a column, and every column is
      of a numeric type; then value i is row i's first value. */
  lemma FirstColumnOfRows(cols: seq<Column>, rows: seq<seq<Value>>)
    requires forall i :: 0 <= i < |rows| ==> RowFits(cols, rows[i])
    ensures FirstColumn(rows).Ok? <==> |rows| > 0 && |cols| > 0 && forall j :: 0 <= j < |cols| ==> NumericColumn(cols[j])
    ensures FirstColumn(rows).Ok? ==> forall i :: 0 <= i < |rows| ==> FirstColumn(rows).value[i] == AsNumber(rows[i][0])
  {
    if |rows| > 0 && IsNumericMatrix(rows) {
      forall j | 0 <= j < |cols|
        ensures NumericColumn(cols[j])
      {
        assert Fits(cols[j].valueType, rows[0][j]);
      }
    }
    if |rows| > 0 && (forall j :: 0 <= j < |cols| ==> NumericColumn(cols[j])) {
      forall i, j | 0 <= i < |rows| && 0 <= j < |rows[i]|
        ensures Numeric(rows[i][j])
      {
        assert Fits(cols[j].valueType, rows[i][j]);
      }
    }
  }

  /** The Command Console branch: `read_cel`, the first data group, its
      first data set whose name starts with 'Intensity', column 0. */
  function CcgIntensities(data: seq<Byte>): Result<seq<Number>> {
    var cel :- Unpack(CelAt(data));
    if |cel.dataGroups| == 0 then Err(NoDataGroup)
    else
      var ds :- DataSetByName(cel.dataGroups[0].dataSets, "Intensity");
      FirstColumn(ds.rows)
  }

  function Singles(y: seq<Float32>): seq<Number> {
    seq(|y|, k requires 0 <= k < |y| => Single(y[k]))
  }

  /** The version-4 branch, the floats widened to float64. */
  function V4Numbers(data: seq<Byte>, ini: Ini): (r: Result<seq<Number>>)
    ensures r.Ok? <==> V4Intensities(data, ini).Ok?
    ensures r.Ok? ==> |r.value| == |V4Intensities(data, ini).value|
    ensures r.Ok? ==> forall k :: 0 <= k < |r.value| ==> r.value[k] == Single(V4Intensities(data, ini).value[k])
  {
    var y :- V4Intensities(data, ini);
    Ok(Singles(y))
  }

  /** `parse_intensities`: the first byte chooses the decoder, 59 the
      Command Console one and 64 the version-4 one; any other byte, and an
      empty file, are refused. */
  function IntensitiesOf(data: seq<Byte>, ini: Ini): Result<seq<Number>> {
    if |data| == 0 then Err(EmptyFile)
    else if data[0] == MagicNumber then CcgIntensities(data)
    else if data[0] == V4Magic then V4Numbers(data, ini)
    else Err(UnsupportedFormat(data[0]))
  }

  /** A file whose signature the version-4 decoder accepts starts with the
      byte 64. */
  lemma V4FirstByte(data: seq<Byte>)
    requires SignatureAt(data, Start).Ok?
    ensures |data| > 0 && data[0] == V4Magic
  {
    V4Signature(data, Start);
    assert data[0] == data[0 .. 8][0];
  }

  /** Every file the version-4 decoder accepts is sent to it. */
  lemma DispatchV4(data: seq<Byte>, ini: Ini)
    requires V4At(data, ini).Ok?
    ensures IntensitiesOf(data, ini) == V4Numbers(data, ini)
  {
    V4FirstByte(data);
  }

  /** Every file the Command Console decoder accepts is sent to it. */
  lemma DispatchCcg(data: seq<Byte>, ini: Ini)
    requires CelAt(data).Ok?
    ensures IntensitiesOf(data, ini) == CcgIntensities(data)
  {
    FileHeaderAccepts(data);
  }

  // ---------------------------------------------------------------------
  // The readers, each proved to return what its function above says and
  // to leave the stream where it says
  // ---------------------------------------------------------------------

  method ReadTagVal(s: Stream, ini: Ini) returns (r: Result<Section>)
    requires s.Valid()
    modifies s
    ensures s.Valid() && Pack(r, s.Cur()) == TagValAt(s.data, old(s.Cur()), ini)
  {
    var raw :- s.ReadRaw(Little);
    var text := Latin1(raw);
    match ini(SectionHeader + text, '=')
    case IniOk(entries) =>
      return Ok(entries);
    case IniOtherError =>
      return Err(TagValueSyntax);
    case IniSyntaxError =>
      match ini(SectionHeader + Join(Split(text, ';'), '\n'), ':')
      case IniOk(entries) =>
        return Ok(entries);
      case _ =>
        return Err(TagValueSyntax);
  }

  method ReadSignature(s: Stream) returns (r: Result<()>)
    requires s.Valid()
    modifies s
    ensures s.Valid() && Pack(r, s.Cur()) == SignatureAt(s.data, old(s.Cur()))
  {
    ghost var c := s.Cur();
    var magic :- s.ReadInt(Little, I32);
    LeIntAt(s.data, c, I32);
    if magic != V4Magic {
      return Err(BadMagic(magic));
    }
    var version :- s.ReadInt(Little, I32);
    LeIntAt(s.data, Advance(c, 4), I32);
    if version != V4Version {
      return Err(BadVersion(version));
    }
    return Ok(());
  }

  method ReadDimensions(s: Stream) returns (r: Result<(int, int, int)>)
    requires s.Valid()
    modifies s
    ensures s.Valid() && Pack(r, s.Cur()) == DimensionsAt(s.data, old(s.Cur()))
  {
    ghost var c := s.Cur();
    var cols :- s.ReadInt(Little, I32);
    var rows :- s.ReadInt(Little, I32);
    var cells :- s.ReadInt(Little, I32);
    LeIntAt(s.data, c, I32);
    LeIntAt(s.data, Advance(c, 4), I32);
    LeIntAt(s.data, Advance(c, 8), I32);
    return Ok((cols, rows, cells));
  }

  method ReadCounts(s: Stream) returns (r: Result<(int, int, int, int)>)
    requires s.Valid()
    modifies s
    ensures s.Valid() && Pack(r, s.Cur()) == CountsAt(s.data, old(s.Cur()))
  {
    ghost var c := s.Cur();
    assert Width(U32) == 4;
    var margin :- s.ReadInt(Little, I32);
    var outliers :- s.ReadInt(Little, U32);
    var masked :- s.ReadInt(Little, U32);
    var subgrids :- s.ReadInt(Little, I32);
    assert CountsAt(s.data, c).Ok?;
    LeIntAt(s.data, c, I32);
    LeIntAt(s.data, Advance(c, 4), U32);
    LeIntAt(s.data, Advance(c, 8), U32);
    LeIntAt(s.data, Advance(c, 12), I32);
    return Ok((margin, outliers, masked, subgrids));
  }

  method ReadV4Header(s: Stream, ini: Ini) returns (r: Result<V4Header>)
    requires s.Valid()
    modifies s
    ensures s.Valid() && Pack(r, s.Cur()) == V4HeaderAt(s.data, old(s.Cur()), ini)
  {
    var dims :- ReadDimensions(s);
    var header :- ReadTagVal(s, ini);
    var algorithm :- s.ReadRaw(Little);
    var params :- ReadTagVal(s, ini);
    var counts :- ReadCounts(s);
    var (cols, rows, cells) := dims;
    var (margin, outliers, masked, subgrids) := counts;
    return Ok(V4Header(cols, rows, cells, header, algorithm, params, margin, outliers, masked, subgrids));
  }

  method ReadCell(s: Stream) returns (r: Result<Cell>)
    requires s.Valid()
    modifies s
    ensures s.Valid() && Pack(r, s.Cur()) == CellAt(s.data, old(s.Cur()))
  {
    ghost var c := s.Cur();
    var intensity :- s.ReadFloat(Little);
    var stdev :- s.ReadFloat(Little);
    var pixels :- s.ReadInt(Little, I16);
    LeFloatAt(s.data, c);
    LeFloatAt(s.data, Advance(c, 4));
    LeIntAt(s.data, Advance(c, 8), I16);
    return Ok(Cell(intensity, stdev, pixels));
  }

  method ReadCoords(s: Stream) returns (r: Result<Coords>)
    requires s.Valid()
    modifies s
    ensures s.Valid() && Pack(r, s.Cur()) == CoordsAt(s.data, old(s.Cur()))
  {
    ghost var c := s.Cur();
    var x :- s.ReadInt(Little, I16);
    var y :- s.ReadInt(Little, I16);
    LeIntAt(s.data, c, I16);
    LeIntAt(s.data, Advance(c, 2), I16);
    return Ok(Coords(x, y));
  }

  method ReadPoint(s: Stream) returns (r: Result<Point>)
    requires s.Valid()
    modifies s
    ensures s.Valid() && Pack(r, s.Cur()) == PointAt(s.data, old(s.Cur()))
  {
    ghost var c := s.Cur();
    var x :- s.ReadFloat(Little);
    var y :- s.ReadFloat(Little);
    LeFloatAt(s.data, c);
    LeFloatAt(s.data, Advance(c, 4));
    return Ok(Point(x, y));
  }

  method ReadCorners(s: Stream) returns (r: Result<Corners>)
    requires s.Valid()
    modifies s
    ensures s.Valid() && Pack(r, s.Cur()) == CornersAt(s.data, old(s.Cur()))
  {
    var upperLeft :- ReadPoint(s);
    var upperRight :- ReadPoint(s);
    var lowerLeft :- ReadPoint(s);
    var lowerRight :- ReadPoint(s);
    return Ok(Corners(upperLeft, upperRight, lowerLeft, lowerRight));
  }

  method ReadBounds(s: Stream) returns (r: Result<Bounds>)
    requires s.Valid()
    modifies s
    ensures s.Valid() && Pack(r, s.Cur()) == BoundsAt(s.data, old(s.Cur()))
  {
    ghost var c := s.Cur();
    var left :- s.ReadInt(Little, I32);
    var top :- s.ReadInt(Little, I32);
    var right :- s.ReadInt(Little, I32);
    var bottom :- s.ReadInt(Little, I32);
    LeIntAt(s.data, c, I32);
    LeIntAt(s.data, Advance(c, 4), I32);
    LeIntAt(s.data, Advance(c, 8), I32);
    LeIntAt(s.data, Advance(c, 12), I32);
    return Ok(Bounds(left, top, right, bottom));
  }

  method ReadSubgrid(s: Stream) returns (r: Result<Subgrid>)
    requires s.Valid()
    modifies s
    ensures s.Valid() && Pack(r, s.Cur()) == SubgridAt(s.data, old(s.Cur()))
  {
    ghost var c := s.Cur();
    var numRows :- s.ReadInt(Little, I32);
    var numCols :- s.ReadInt(Little, I32);
    var corners :- ReadCorners(s);
    var bounds :- ReadBounds(s);
    LeIntAt(s.data, c, I32);
    LeIntAt(s.data, Advance(c, 4), I32);
    return Ok(Subgrid(numRows, numCols, corners, bounds));
  }

  /** The inner loop of the cell block: one column of `num_rows` cells
      appended to `cells`. */
  method ReadColumnCells(s: Stream, numRows: int, cells: seq<Cell>) returns (r: Result<seq<Cell>>)
    requires s.Valid()
    modifies s
    ensures s.Valid() && Pack(r, s.Cur()) == RecordsFrom(CellOf, 10, s.data, Times(numRows), Parsed(cells, old(s.Cur())))
  {
    ghost var whole := RecordsFrom(CellOf, 10, s.data, Times(numRows), Parsed(cells, s.Cur()));
    var acc := cells;
    var i := 0;
    while i < numRows
      invariant 0 <= i <= Times(numRows) && s.Valid()
      invariant RecordsFrom(CellOf, 10, s.data, Times(numRows) - i, Parsed(acc, s.Cur())) == whole
    {
      ghost var before := s.Cur();
      var cell := ReadCell(s);
      RecordsStep(CellOf, 10, s.data, Times(numRows) - i, Parsed(acc, before));
      if cell.Err? {
        return Err(cell.error);
      }
      acc := acc + [cell.value];
      i := i + 1;
    }
    return Ok(acc);
  }

  /** The cell block: `num_cols` columns of `num_rows` cells. */
  method ReadCells(s: Stream, numCols: int, numRows: int) returns (r: Result<seq<Cell>>)
    requires s.Valid()
    modifies s
    ensures s.Valid() && Pack(r, s.Cur()) == CellsFrom(CellOf, s.data, Times(numCols), Times(numRows), Parsed([], old(s.Cur())))
  {
    ghost var whole := CellsFrom(CellOf, s.data, Times(numCols), Times(numRows), Parsed([], s.Cur()));
    var cells: seq<Cell> := [];
    var j := 0;
    while j < numCols
      invariant 0 <= j <= Times(numCols) && s.Valid()
      invariant CellsFrom(CellOf, s.data, Times(numCols) - j, Times(numRows), Parsed(cells, s.Cur())) == whole
    {
      var column := ReadColumnCells(s, numRows, cells);
      if column.Err? {
        return Err(column.error);
      }
      cells := column.value;
      j := j + 1;
    }
    return Ok(cells);
  }

  /** `for i in range(n): xs.append(read_coords(fh))`. */
  method ReadCoordsList(s: Stream, n: int) returns (r: Result<seq<Coords>>)
    requires s.Valid()
    modifies s
    ensures s.Valid() && Pack(r, s.Cur()) == RecordsFrom(CoordsOf, 4, s.data, Times(n), Parsed([], old(s.Cur())))
  {
    ghost var whole := RecordsFrom(CoordsOf, 4, s.data, Times(n), Parsed([], s.Cur()));
    var xs: seq<Coords> := [];
    var i := 0;
    while i < n
      invariant 0 <= i <= Times(n) && s.Valid()
      invariant RecordsFrom(CoordsOf, 4, s.data, Times(n) - i, Parsed(xs, s.Cur())) == whole
    {
      ghost var before := s.Cur();
      var xy := ReadCoords(s);
      RecordsStep(CoordsOf, 4, s.data, Times(n) - i, Parsed(xs, before));
      if xy.Err? {
        return Err(xy.error);
      }
      xs := xs + [xy.value];
      i := i + 1;
    }
    return Ok(xs);
  }

  method ReadSubgrids(s: Stream, n: int) returns (r: Result<seq<Subgrid>>)
    requires s.Valid()
    modifies s
    ensures s.Valid() && Pack(r, s.Cur()) == RecordsFrom(SubgridOf, 56, s.data, Times(n), Parsed([], old(s.Cur())))
  {
    ghost var whole := RecordsFrom(SubgridOf, 56, s.data, Times(n), Parsed([], s.Cur()));
    var grids: seq<Subgrid> := [];
    var i := 0;
    while i < n
      invariant 0 <= i <= Times(n) && s.Valid()
      invariant RecordsFrom(SubgridOf, 56, s.data, Times(n) - i, Parsed(grids, s.Cur())) == whole
    {
      ghost var before := s.Cur();
      var grid := ReadSubgrid(s);
      RecordsStep(SubgridOf, 56, s.data, Times(n) - i, Parsed(grids, before));
      if grid.Err? {
        return Err(grid.error);
      }
      grids := grids + [grid.value];
      i := i + 1;
    }
    return Ok(grids);
  }

  method ReadV4Body(s: Stream, h: V4Header) returns (r: Result<V4Cel>)
    requires s.Valid()
    modifies s
    ensures s.Valid() && Pack(r, s.Cur()) == V4BodyAt(s.data, old(s.Cur()), h)
  {
    var cells :- ReadCells(s, h.numCols, h.numRows);
    var masked :- ReadCoordsList(s, h.numMasked);
    var outliers :- ReadCoordsList(s, h.numOutliers);
    var subgrids :- ReadSubgrids(s, h.numSubgrids);
    return Ok(V4Cel(h, cells, masked, outliers, subgrids));
  }

  /** `_parse_cel_v4_intensities` on the bytes of a file. */
  method ParseV4Intensities(data: seq<Byte>, ini: Ini) returns (r: Result<seq<Float32>>)
    ensures r == V4Intensities(data, ini)
  {
    var s := new Stream(data);
    var _ :- ReadSignature(s);
    var head :- ReadV4Header(s, ini);
    var cel :- ReadV4Body(s, head);
    return Ok(Intensities(cel.cells));
  }

  /** The Command Console branch of `parse_intensities`. */
  method ParseCcgIntensities(data: seq<Byte>) returns (r: Result<seq<Number>>)
    ensures r == CcgIntensities(data)
  {
    var cel :- ReadCel(data);
    if |cel.dataGroups| == 0 {
      return Err(NoDataGroup);
    }
    var ds :- GetDataSetByName(cel.dataGroups[0], "Intensity");
    return FirstColumn(ds.rows);
  }

  /** `parse_intensities` on the bytes of a file. */
  method ParseIntensities(data: seq<Byte>, ini: Ini) returns (r: Result<seq<Number>>)
    ensures r == IntensitiesOf(data, ini)
  {
    var probe := new Stream(data);
    var first := probe.Read(1);
    if |first| == 0 {
      return Err(EmptyFile);
    }
    var v := first[0];
    assert v == data[0];
    if v == MagicNumber {
      r := ParseCcgIntensities(data);
    } else if v == V4Magic {
      var y :- ParseV4Intensities(data, ini);
      r := Ok(Singles(y));
    } else {
      r := Err(UnsupportedFormat(v));
    }
  }
}
