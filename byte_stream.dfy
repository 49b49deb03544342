/** The input side shared by both binary CEL decoders: a file read front
    to back with `fh.read`, and the running byte counter `read[0]` that
    each decoder keeps beside it. The two are separate on purpose: Python's
    `fh.read(n)` returns fewer than n bytes at the end of the file (and
    everything that is left when n is negative), while the counter is
    advanced by the declared length regardless. */
module ByteStream {
  import opened Common
  import opened Primitives

  /** Where a decoder stands: `pos` is the file position, `count` is the
      counter `read[0]`. Both start at 0 when the file is opened. */
  datatype Cursor = Cursor(pos: nat, count: int)

  /** A value read, together with the cursor after it. */
  datatype Parsed<+T> = Parsed(value: T, rest: Cursor)

  const Start := Cursor(0, 0)

  /** The cursor `n` bytes further on, the counter moved with it. */
  function Advance(c: Cursor, n: nat): Cursor {
    Cursor(c.pos + n, c.count + n)
  }

  predicate Within(data: seq<Byte>, c: Cursor) {
    c.pos <= |data|
  }

  /** From `c` to `c'` the counter moved exactly as far as the file
      position did, unless the file was read to its end. */
  predicate Tracked(data: seq<Byte>, c: Cursor, c': Cursor) {
    c.pos <= c'.pos <= |data| && (c'.pos < |data| ==> c'.count - c.count == c'.pos - c.pos)
  }

  /** The outcome of a method, with the stream's cursor after it, in the
      shape the specification functions return. */
  function Pack<T>(r: Result<T>, c: Cursor): Result<Parsed<T>> {
    match r
    case Ok(v) => Ok(Parsed(v, c))
    case Err(e) => Err(e)
  }

  /** The outcome of a whole decoding, without the cursor it ended at. */
  function Unpack<T>(r: Result<Parsed<T>>): Result<T> {
    match r
    case Ok(p) => Ok(p.value)
    case Err(e) => Err(e)
  }

  /** `fh.read(n)`: the next n bytes, fewer at the end of the file, and all
      that is left when n is negative. */
  function Take(data: seq<Byte>, pos: nat, n: int): (r: seq<Byte>)
    requires pos <= |data|
    ensures |r| == if 0 <= n <= |data| - pos then n else |data| - pos
  {
    Segment(data, pos, if 0 <= n <= |data| - pos then n else |data| - pos)
  }

  /** The `n` bytes of the file from `pos` on, one at a time. Kept
      recursive so that a decoder's unfolding does not bring the slice
      axioms along; `SegmentIsSlice` relates it to the slice. */
  function Segment(data: seq<Byte>, pos: nat, n: nat): (r: seq<Byte>)
    requires pos + n <= |data|
    ensures |r| == n
    decreases n
  {
    if n == 0 then [] else [data[pos]] + Segment(data, pos + 1, n - 1)
  }

  lemma {:induction false} SegmentIsSlice(data: seq<Byte>, pos: nat, n: nat)
    requires pos + n <= |data|
    ensures Segment(data, pos, n) == data[pos .. pos + n]
    decreases n
  {
    if n > 0 {
      SegmentIsSlice(data, pos + 1, n - 1);
    }
  }

  /** A read returns the file's bytes at the position: exactly the next n
      when the file can satisfy it. */
  lemma TakeWhole(data: seq<Byte>, pos: nat, n: int)
    requires pos <= |data|
    ensures Take(data, pos, n) == data[pos .. pos + |Take(data, pos, n)|]
    ensures 0 <= n <= |data| - pos ==> Take(data, pos, n) == data[pos .. pos + n]
  {
    SegmentIsSlice(data, pos, |Take(data, pos, n)|);
  }

  /** `read[0] += w` then `struct.unpack` of `fh.read(w)`: the bytes of one
      fixed-width field, or failure on a short read. */
  function FieldAt(data: seq<Byte>, c: Cursor, w: nat): (r: Result<Parsed<seq<Byte>>>)
    requires Within(data, c)
    ensures r.Ok? <==> c.pos + w <= |data|
    ensures r.Err? ==> r.error == Truncated
    ensures r.Ok? ==> |r.value.value| == w && r.value.rest == Cursor(c.pos + w, c.count + w)
  {
    var b := Take(data, c.pos, w);
    if |b| < w then Err(Truncated) else Ok(Parsed(b, Cursor(c.pos + w, c.count + w)))
  }

  /** One integer field: `read_int`, `read_uint`, `read_short`, ... Every
      one advances the counter and the position by exactly its width. */
  function IntAt(data: seq<Byte>, c: Cursor, e: Endian, k: IntKind): (r: Result<Parsed<int>>)
    requires Within(data, c)
    ensures r.Ok? <==> c.pos + Width(k) <= |data|
    ensures r.Err? ==> r.error == Truncated
    ensures r.Ok? ==> r.value.rest == Cursor(c.pos + Width(k), c.count + Width(k))
    ensures r.Ok? ==> InRange(k, r.value.value)
  {
    var f :- FieldAt(data, c, Width(k));
    DecodeFacts(e, k, f.value);
    Ok(Parsed(Decode(e, k, f.value), f.rest))
  }

  /** The field bytes of a fixed-width field are the file's bytes at the
      cursor, and an integer field holds the integer whose encoding they
      are. */
  lemma FieldContent(data: seq<Byte>, c: Cursor, e: Endian, k: IntKind)
    requires Within(data, c) && c.pos + Width(k) <= |data|
    ensures FieldAt(data, c, Width(k)).value.value == data[c.pos .. c.pos + Width(k)]
    ensures InRange(k, IntAt(data, c, e, k).value.value)
    ensures Encode(e, k, IntAt(data, c, e, k).value.value) == data[c.pos .. c.pos + Width(k)]
  {
    SegmentIsSlice(data, c.pos, Width(k));
    EncodeDecode(e, k, data[c.pos .. c.pos + Width(k)]);
  }

  /** An integer field holding the encoding of `v` reads back as `v`. */
  lemma IntAtEncoded(data: seq<Byte>, c: Cursor, e: Endian, k: IntKind, v: int)
    requires InRange(k, v) && c.pos + Width(k) <= |data|
    requires data[c.pos .. c.pos + Width(k)] == Encode(e, k, v)
    ensures IntAt(data, c, e, k).Ok? && IntAt(data, c, e, k).value.value == v
  {
    SegmentIsSlice(data, c.pos, Width(k));
    DecodeEncode(e, k, v);
  }

  /** An integer field the file can hold decodes the file's bytes at the
      cursor. */
  lemma IntAtSlice(data: seq<Byte>, c: Cursor, e: Endian, k: IntKind)
    requires c.pos + Width(k) <= |data|
    ensures IntAt(data, c, e, k).Ok?
    ensures IntAt(data, c, e, k).value.value == Decode(e, k, data[c.pos .. c.pos + Width(k)])
  {
    SegmentIsSlice(data, c.pos, Width(k));
  }

  /** `read_float`: four bytes, kept as their bit pattern. */
  function FloatAt(data: seq<Byte>, c: Cursor, e: Endian): (r: Result<Parsed<Float32>>)
    requires Within(data, c)
    ensures r.Ok? <==> c.pos + 4 <= |data|
    ensures r.Err? ==> r.error == Truncated
    ensures r.Ok? ==> r.value.rest == Cursor(c.pos + 4, c.count + 4)
  {
    var f :- FieldAt(data, c, 4);
    Ok(Parsed(DecodeFloat(e, f.value), f.rest))
  }

  /** `read_raw` (and `read_string`): a signed 32-bit length L, then
      `fh.read(L)`; the counter grows by 4 + L whatever the read returned. */
  function RawAt(data: seq<Byte>, c: Cursor, e: Endian): (r: Result<Parsed<seq<Byte>>>)
    requires Within(data, c)
    ensures r.Ok? <==> c.pos + 4 <= |data|
    ensures r.Err? ==> r.error == Truncated
    ensures r.Ok? ==> Tracked(data, c, r.value.rest) && r.value.rest.pos >= c.pos + 4
  {
    var n :- IntAt(data, c, e, I32);
    var b := Take(data, n.rest.pos, n.value);
    Ok(Parsed(b, Cursor(n.rest.pos + |b|, n.rest.count + n.value)))
  }

  /** A float field the file can hold decodes the file's bytes at the
      cursor. */
  lemma FloatAtSlice(data: seq<Byte>, c: Cursor, e: Endian)
    requires c.pos + 4 <= |data|
    ensures FloatAt(data, c, e).Ok?
    ensures FloatAt(data, c, e).value.value == DecodeFloat(e, data[c.pos .. c.pos + 4])
  {
    SegmentIsSlice(data, c.pos, 4);
  }

  /** A float field has the bits that an unsigned 32-bit field at the same
      place would have. */
  lemma FloatAtBits(data: seq<Byte>, c: Cursor, e: Endian)
    requires Within(data, c) && FloatAt(data, c, e).Ok?
    ensures FloatAt(data, c, e).value.value.bits == IntAt(data, c, e, U32).value.value
  {
    FloatBits(e, FieldAt(data, c, 4).value.value);
  }

  /** A length-prefixed block: the counter grows by the declared length L
      and the position by what was read, which is the L bytes after the
      length field whenever the file has that many left. */
  lemma RawAtLength(data: seq<Byte>, c: Cursor, e: Endian)
    requires Within(data, c) && RawAt(data, c, e).Ok?
    ensures
      var len := IntAt(data, c, e, I32).value.value;
      var r := RawAt(data, c, e).value;
      && r.rest.count == c.count + 4 + len
      && r.rest.pos == c.pos + 4 + |r.value|
      && r.value == data[c.pos + 4 .. r.rest.pos]
      && (0 <= len <= |data| - (c.pos + 4) ==> |r.value| == len)
  {
    TakeWhole(data, c.pos + 4, IntAt(data, c, e, I32).value.value);
  }

  /** Tracking composes: two steps that each keep the counter with the
      position keep it over both. */
  lemma TrackedTrans(data: seq<Byte>, c1: Cursor, c2: Cursor, c3: Cursor)
    requires Tracked(data, c1, c2) && Tracked(data, c2, c3)
    ensures Tracked(data, c1, c3)
  {
  }

  /** A length-prefixed block written with `struct.pack` and its payload is
      read back whole, and both counters land just after it. */
  lemma RawRoundTrip(data: seq<Byte>, c: Cursor, e: Endian, payload: seq<Byte>)
    requires c.pos + 4 + |payload| <= |data|
    requires |payload| < 0x8000_0000
    requires data[c.pos .. c.pos + 4] == Encode(e, I32, |payload|)
    requires data[c.pos + 4 .. c.pos + 4 + |payload|] == payload
    ensures RawAt(data, c, e) ==
      Ok(Parsed(payload, Cursor(c.pos + 4 + |payload|, c.count + 4 + |payload|)))
  {
    IntAtEncoded(data, c, e, I32, |payload|);
    SegmentIsSlice(data, c.pos + 4, |payload|);
  }

  /** The file opened once: its bytes, the file position and the counter. */
  class Stream {
    const data: seq<Byte>
    var pos: nat
    var count: int

    ghost predicate Valid()
      reads this
    {
      pos <= |data|
    }

    function Cur(): Cursor
      reads this
    {
      Cursor(pos, count)
    }

    constructor (data: seq<Byte>)
      ensures this.data == data && Valid() && Cur() == Start
    {
      this.data := data;
      pos := 0;
      count := 0;
    }

    /** `fh.read(n)`; it does not touch the counter. */
    method Read(n: int) returns (b: seq<Byte>)
      requires Valid()
      modifies this
      ensures Valid() && b == Take(data, old(pos), n)
      ensures pos == old(pos) + |b| && count == old(count)
    {
      b := Take(data, pos, n);
      pos := pos + |b|;
    }

    method ReadField(w: nat) returns (r: Result<seq<Byte>>)
      requires Valid()
      modifies this
      ensures Valid() && Pack(r, Cur()) == FieldAt(data, old(Cur()), w)
    {
      count := count + w;
      var b := Read(w);
      if |b| < w {
        return Err(Truncated);
      }
      return Ok(b);
    }

    method ReadInt(e: Endian, k: IntKind) returns (r: Result<int>)
      requires Valid()
      modifies this
      ensures Valid() && Pack(r, Cur()) == IntAt(data, old(Cur()), e, k)
    {
      var b :- ReadField(Width(k));
      return Ok(Decode(e, k, b));
    }

    method ReadFloat(e: Endian) returns (r: Result<Float32>)
      requires Valid()
      modifies this
      ensures Valid() && Pack(r, Cur()) == FloatAt(data, old(Cur()), e)
    {
      var b :- ReadField(4);
      return Ok(DecodeFloat(e, b));
    }

    method ReadRaw(e: Endian) returns (r: Result<seq<Byte>>)
      requires Valid()
      modifies this
      ensures Valid() && Pack(r, Cur()) == RawAt(data, old(Cur()), e)
    {
      var n :- ReadInt(e, I32);
      count := count + n;
      var b := Read(n);
      return Ok(b);
    }
  }
}
