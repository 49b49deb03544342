/** The Command Console ("generic") CEL decoder: a big-endian container of
    a file header, one recursive data header, and data groups holding data
    sets of typed columns. The functions below say what each reader of the
    original returns and where it leaves the file position and the byte
    counter; the methods further down are the readers themselves, each
    proved to do what its function says. */
module CommandConsole {
  import opened Common
  import opened Primitives
  import opened ByteStream

  /** A decoded value: an integer of any width, a float, a byte string
      (`read_string`, 'text/x-...' values left raw) or text. */
  datatype Value = Int(i: int) | Real(f: Float32) | Bytes(b: seq<Byte>) | Text(text: string)

  /** One (name, value) entry of a parameter OrderedDict. */
  datatype Param = Param(name: string, value: Value)

  datatype DataHeader = DataHeader(
    dataTypeId: seq<Byte>,
    fileId: seq<Byte>,
    creationTime: string,
    locale: string,
    params: seq<Param>,
    parents: seq<DataHeader>)

  datatype Column = Column(name: string, valueType: int, size: int)

  datatype DataSet = DataSet(name: string, params: seq<Param>, colNames: seq<string>, rows: seq<seq<Value>>)

  datatype DataGroup = DataGroup(name: string, dataSets: seq<DataSet>)

  datatype FileHeader = FileHeader(numDataGroups: int, firstGroupPos: int)

  datatype Cel = Cel(header: DataHeader, dataGroups: seq<DataGroup>)

  /** The fields at the start of a data group. */
  datatype GroupHead = GroupHead(nextPos: int, dataSetPos: int, numDataSets: int, name: string)

  /** The fields of a data set before its rows. */
  datatype DataSetHead = DataSetHead(dataPos: int, nextPos: int, name: string, params: seq<Param>, cols: seq<Column>, numRows: int)

  /** The kinds of VALUE_TYPES: read_byte, read_ubyte, read_short,
      read_ushort, read_int, read_uint, read_float, read_string,
      read_wstring. */
  datatype ColumnKind = IntColumn(k: IntKind) | FloatColumn | StringColumn | WideStringColumn

  /** How many times `for i in range(n)` runs. */
  function Times(n: int): nat {
    if n < 0 then 0 else n
  }

  /** The integer of kind `k` stored big-endian at byte `p` of the file. */
  function BeInt(data: seq<Byte>, p: nat, k: IntKind): int
    requires p + Width(k) <= |data|
  {
    Decode(Big, k, data[p .. p + Width(k)])
  }

  /** A big-endian integer field read at a cursor is the integer stored at
      the cursor's position. */
  lemma IntAtBe(data: seq<Byte>, c: Cursor, k: IntKind)
    requires c.pos + Width(k) <= |data|
    ensures IntAt(data, c, Big, k).Ok? && IntAt(data, c, Big, k).value.value == BeInt(data, c.pos, k)
    ensures IntAt(data, c, Big, k).value.rest == Advance(c, Width(k))
  {
    IntAtSlice(data, c, Big, k);
  }

  const MagicNumber := 59
  const Version := 1

  // ---------------------------------------------------------------------
  // Strings and typed parameters
  // ---------------------------------------------------------------------

  /** `read_wstring`: a signed length L, then 2L bytes of UTF-16-BE text. */
  function WStringAt(data: seq<Byte>, c: Cursor): (r: Result<Parsed<string>>)
    requires Within(data, c)
    ensures r.Ok? ==> Tracked(data, c, r.value.rest) && r.value.rest.pos >= c.pos + 4
  {
    var n :- IntAt(data, c, Big, I32);
    var b := Take(data, n.rest.pos, 2 * n.value);
    var text :- DecodeUtf16(b);
    Ok(Parsed(text, Cursor(n.rest.pos + |b|, n.rest.count + 2 * n.value)))
  }

  /** A wide string fails only on a short length field or on bytes that are
      not UTF-16; the counter grows by 4 + 2L and the position by the same
      amount whenever the file holds the whole text. */
  lemma WStringFacts(data: seq<Byte>, c: Cursor)
    requires Within(data, c)
    ensures WStringAt(data, c).Err? ==> WStringAt(data, c).error in {Truncated, OddWideString, BadSurrogate}
    ensures WStringAt(data, c).Ok? ==>
      var len := IntAt(data, c, Big, I32).value.value;
      var rest := WStringAt(data, c).value.rest;
      && rest.count == c.count + 4 + 2 * len
      && (0 <= 2 * len <= |data| - (c.pos + 4) ==> rest.pos == c.pos + 4 + 2 * len)
  {
    var n := IntAt(data, c, Big, I32);
    if n.Ok? {
      DecodeUtf16Facts(Take(data, n.value.rest.pos, 2 * n.value.value));
    }
  }

  /** Text written as its code-unit count followed by its UTF-16-BE bytes
      is read back whole, and both counters land just after it. */
  lemma WStringRoundTrip(data: seq<Byte>, c: Cursor, text: string)
    requires c.pos + 4 + |EncodeUtf16(text)| <= |data|
    requires |EncodeUtf16(text)| < 0x1_0000_0000
    requires data[c.pos .. c.pos + 4] == Encode(Big, I32, |EncodeUtf16(text)| / 2)
    requires data[c.pos + 4 .. c.pos + 4 + |EncodeUtf16(text)|] == EncodeUtf16(text)
    ensures WStringAt(data, c).Ok? && WStringAt(data, c).value.value == text
    ensures WStringAt(data, c).value.rest ==
      Cursor(c.pos + 4 + |EncodeUtf16(text)|, c.count + 4 + |EncodeUtf16(text)|)
  {
    var bytes := EncodeUtf16(text);
    DecodeEncodeUtf16(text);
    WStringEncoded(data, c, |bytes| / 2, bytes, text);
  }

  /** A length field holding L followed by 2L bytes that decode to `text`
      is read as `text`. */
  lemma WStringEncoded(data: seq<Byte>, c: Cursor, len: nat, bytes: seq<Byte>, text: string)
    requires DecodeUtf16(bytes) == Ok(text) && |bytes| == 2 * len
    requires c.pos + 4 + |bytes| <= |data| && len < 0x8000_0000
    requires data[c.pos .. c.pos + 4] == Encode(Big, I32, len)
    requires data[c.pos + 4 .. c.pos + 4 + |bytes|] == bytes
    ensures WStringAt(data, c).Ok? && WStringAt(data, c).value.value == text
    ensures WStringAt(data, c).value.rest == Cursor(c.pos + 4 + |bytes|, c.count + 4 + |bytes|)
  {
    IntAtEncoded(data, c, Big, I32, len);
    TakeWhole(data, c.pos + 4, 2 * len);
    WStringAtParts(data, c, len, bytes, text);
  }

  /** A wide string is read from its length field, its bytes and their text. */
  lemma WStringAtParts(data: seq<Byte>, c: Cursor, len: int, bytes: seq<Byte>, text: string)
    requires Within(data, c)
    requires IntAt(data, c, Big, I32).Ok? && IntAt(data, c, Big, I32).value.value == len
    requires Take(data, c.pos + 4, 2 * len) == bytes && DecodeUtf16(bytes) == Ok(text)
    ensures WStringAt(data, c).Ok? && WStringAt(data, c).value.value == text
    ensures WStringAt(data, c).value.rest == Cursor(c.pos + 4 + |bytes|, c.count + 4 + 2 * len)
  {
  }

  /** The integer kind named by a 'text/x-calvin-...' type tag, if any. */
  function IntegerTag(tag: string): Option<IntKind> {
    if tag == "text/x-calvin-integer-32" then Some(I32)
    else if tag == "text/x-calvin-unsigned-integer-32" then Some(U32)
    else if tag == "text/x-calvin-unsigned-integer-8" then Some(U8)
    else if tag == "text/x-calvin-unsigned-integer-16" then Some(U16)
    else if tag == "text/x-calvin-integer-8" then Some(I8)
    else if tag == "text/x-calvin-integer-16" then Some(I16)
    else None
  }

  predicate KnownTag(tag: string) {
    tag == "text/plain" || tag == "text/ascii" || tag == "text/x-calvin-float" || IntegerTag(tag).Some?
  }

  /** The value of a header parameter as its type tag says: text with its
      trailing zero bytes removed, or a number decoded from the leading 1, 2
      or 4 bytes of the raw value; any other tag keeps the raw bytes. Both
      text tags strip with a text argument, so their raw bytes must be
      ASCII before they are decoded. */
  function TypedValue(tag: string, raw: seq<Byte>): (r: Result<Value>)
    ensures !KnownTag(tag) ==> r == Ok(Bytes(raw))
  {
    if tag == "text/plain" then
      var stripped :- StripZerosAsText(raw);
      var text :- DecodeUtf16(stripped);
      Ok(Text(text))
    else if tag == "text/ascii" then
      var stripped :- StripZerosAsText(raw);
      var text :- DecodeAscii(stripped);
      Ok(Text(text))
    else if tag == "text/x-calvin-float" then
      if |raw| < 4 then Err(Truncated) else Ok(Real(DecodeFloat(Big, raw[..4])))
    else if IntegerTag(tag).Some? then
      var k := IntegerTag(tag).value;
      if |raw| < Width(k) then Err(Truncated) else Ok(Int(Decode(Big, k, raw[..Width(k)])))
    else Ok(Bytes(raw))
  }

  /** What each type tag makes of the raw bytes: an integer tag succeeds
      exactly when the value has room for its width and gives the integer
      whose encoding the leading bytes are; the float tag likewise with four
      bytes. Both text tags fail with `NotAscii` on any byte above 127;
      otherwise 'text/ascii' gives character i for byte i of the value
      without its trailing zero bytes, and 'text/plain' gives character k
      for bytes 2k and 2k+1 of it, failing exactly when their number is
      odd. */
  lemma TypedValueFacts(tag: string, raw: seq<Byte>)
    ensures IntegerTag(tag).Some? ==>
      var k := IntegerTag(tag).value;
      var r := TypedValue(tag, raw);
      && (r.Ok? <==> |raw| >= Width(k))
      && (r.Ok? ==> r.value.Int? && InRange(k, r.value.i) && Encode(Big, k, r.value.i) == raw[..Width(k)])
    ensures tag == "text/x-calvin-float" ==>
      var r := TypedValue(tag, raw);
      && (r.Ok? <==> |raw| >= 4)
      && (r.Ok? ==> r.value == Real(DecodeFloat(Big, raw[..4])))
    ensures (tag == "text/plain" || tag == "text/ascii") && !Ascii(raw) ==> TypedValue(tag, raw) == Err(NotAscii)
    ensures tag == "text/plain" ==>
      var r, s := TypedValue(tag, raw), StripZeros(raw);
      && (r.Ok? <==> Ascii(raw) && |s| % 2 == 0)
      && (r.Ok? ==> r.value.Text? && |r.value.text| == |s| / 2
                    && forall k :: 0 <= k < |s| / 2 ==> r.value.text[k] as int == (s[2 * k] as int) * 256 + s[2 * k + 1])
    ensures tag == "text/ascii" ==>
      var r, s := TypedValue(tag, raw), StripZeros(raw);
      && (r.Ok? <==> Ascii(raw))
      && (r.Ok? ==> r.value.Text? && |r.value.text| == |s| && forall i :: 0 <= i < |s| ==> r.value.text[i] as int == s[i])
  {
    if IntegerTag(tag).Some? {
      var k := IntegerTag(tag).value;
      if |raw| >= Width(k) {
        EncodeDecode(Big, k, raw[..Width(k)]);
      }
    }
    if Ascii(raw) {
      var s := StripZeros(raw);
      assert StripZerosAsText(raw) == Ok(s);
      if tag == "text/plain" {
        DecodeUtf16Ascii(s);
      }
      if tag == "text/ascii" {
        DecodeAsciiFacts(s);
      }
    }
  }

  /** `read_header_param`: a name, a raw value and a type tag, in that
      order, giving the pair (name, typed value). */
  function ParamAt(data: seq<Byte>, c: Cursor): (r: Result<Parsed<Param>>)
    requires Within(data, c)
    ensures r.Ok? ==> Tracked(data, c, r.value.rest) && r.value.rest.pos >= c.pos + 12
  {
    var name :- WStringAt(data, c);
    var raw :- RawAt(data, name.rest, Big);
    var tag :- WStringAt(data, raw.rest);
    var v :- TypedValue(tag.value, raw.value);
    Ok(Parsed(Param(name.value, v), tag.rest))
  }

  /** A parameter is read as its name, then its raw value, then its type
      tag: the raw value is the bytes after its length field, and the entry
      is the name with that value as the tag types it. */
  lemma ParamLayout(data: seq<Byte>, c: Cursor)
    requires Within(data, c) && ParamAt(data, c).Ok?
    ensures WStringAt(data, c).Ok?
    ensures var name := WStringAt(data, c).value;
            RawAt(data, name.rest, Big).Ok? &&
            var raw := RawAt(data, name.rest, Big).value;
            name.rest.pos + 4 <= raw.rest.pos && raw.value == data[name.rest.pos + 4 .. raw.rest.pos] &&
            WStringAt(data, raw.rest).Ok? &&
            var tag := WStringAt(data, raw.rest).value;
            TypedValue(tag.value, raw.value).Ok? &&
            ParamAt(data, c).value == Parsed(Param(name.value, TypedValue(tag.value, raw.value).value), tag.rest)
  {
    var name := WStringAt(data, c).value;
    RawAtLength(data, name.rest, Big);
  }

  // ---------------------------------------------------------------------
  // The parameter OrderedDict
  // ---------------------------------------------------------------------

  function Names(ps: seq<Param>): (r: seq<string>)
    ensures |r| == |ps|
  {
    if |ps| == 0 then [] else [ps[0].name] + Names(ps[1..])
  }

  lemma {:induction false} NamesAt(ps: seq<Param>, i: nat)
    requires i < |ps|
    ensures Names(ps)[i] == ps[i].name
    decreases i
  {
    if i > 0 {
      NamesAt(ps[1..], i - 1);
    }
  }

  predicate UniqueNames(ps: seq<Param>) {
    forall i, j :: 0 <= i < j < |ps| ==> ps[i].name != ps[j].name
  }

  /** `d[name]` on the OrderedDict. */
  function Lookup(ps: seq<Param>, name: string): Option<Value> {
    if |ps| == 0 then None
    else if ps[0].name == name then Some(ps[0].value)
    else Lookup(ps[1..], name)
  }

  /** `d.update([(name, value)])`: a new name is appended, a known name
      keeps its place and takes the new value. */
  function Update(ps: seq<Param>, p: Param): (r: seq<Param>)
    ensures |ps| <= |r| <= |ps| + 1
  {
    if |ps| == 0 then [p]
    else if ps[0].name == p.name then [p] + ps[1..]
    else [ps[0]] + Update(ps[1..], p)
  }

  /** An update keeps the order of the names already there and appends a
      name it has not seen. */
  lemma {:induction false} UpdateNames(ps: seq<Param>, p: Param)
    ensures Names(Update(ps, p)) == if p.name in Names(ps) then Names(ps) else Names(ps) + [p.name]
    decreases |ps|
  {
    if |ps| > 0 {
      var tail := ps[1..];
      UpdateNames(tail, p);
      assert Names(ps) == [ps[0].name] + Names(tail);
      if ps[0].name != p.name {
        var r := [ps[0]] + Update(tail, p);
        assert r[1..] == Update(tail, p);
        assert Names(r) == [ps[0].name] + Names(Update(tail, p));
      }
    }
  }

  /** After an update, a lookup of the updated name finds the new value and
      a lookup of any other name finds what it found before. */
  lemma {:induction false} UpdateLookup(ps: seq<Param>, p: Param, other: string)
    ensures Lookup(Update(ps, p), p.name) == Some(p.value)
    ensures other != p.name ==> Lookup(Update(ps, p), other) == Lookup(ps, other)
    decreases |ps|
  {
    if |ps| > 0 && ps[0].name != p.name {
      var r := [ps[0]] + Update(ps[1..], p);
      assert r[1..] == Update(ps[1..], p);
      UpdateLookup(ps[1..], p, other);
    }
  }

  /** An update keeps the names unique. */
  lemma {:induction false} UpdateUnique(ps: seq<Param>, p: Param)
    requires UniqueNames(ps)
    ensures UniqueNames(Update(ps, p))
    decreases |ps|
  {
    if |ps| > 0 {
      var tail := ps[1..];
      var r := Update(ps, p);
      if ps[0].name == p.name {
        assert r == [p] + tail;
        forall i, j | 0 <= i < j < |r| ensures r[i].name != r[j].name {
          assert r[j] == ps[j];
          if i > 0 { assert r[i] == ps[i]; }
        }
      } else {
        UpdateUnique(tail, p);
        UpdateNames(tail, p);
        var u := Update(tail, p);
        assert r == [ps[0]] + u;
        forall j | 0 <= j < |u| ensures u[j].name != ps[0].name {
          NamesAt(u, j);
          if u[j].name != p.name {
            assert u[j].name in Names(tail);
            var k :| 0 <= k < |tail| && Names(tail)[k] == u[j].name;
            NamesAt(tail, k);
            assert tail[k] == ps[k + 1];
          }
        }
        forall i, j | 0 <= i < j < |r| ensures r[i].name != r[j].name {
          assert r[j] == u[j - 1];
          if i > 0 { assert r[i] == u[i - 1]; }
        }
      }
    }
  }

  /** `for i in range(n): params.update([read_header_param(fh)])`: the
      dictionary after the first `n` parameters. */
  function ParamsAt(data: seq<Byte>, c: Cursor, n: nat): (r: Result<Parsed<seq<Param>>>)
    requires Within(data, c)
    ensures r.Ok? ==> Tracked(data, c, r.value.rest) && |r.value.value| <= n
    ensures r.Ok? ==> UniqueNames(r.value.value)
    decreases n
  {
    if n == 0 then Ok(Parsed([], c))
    else
      var prev :- ParamsAt(data, c, n - 1);
      var p :- ParamAt(data, prev.rest);
      UpdateUnique(prev.value, p.value);
      Ok(Parsed(Update(prev.value, p.value), p.rest))
  }

  /** Once a parameter fails to decode, the whole loop fails with its
      error. */
  lemma {:induction false} ParamsErr(data: seq<Byte>, c: Cursor, i: nat, n: nat)
    requires Within(data, c) && i <= n
    ensures ParamsAt(data, c, i).Err? ==> ParamsAt(data, c, n) == Err(ParamsAt(data, c, i).error)
    decreases n - i
  {
    if i < n {
      ParamsErr(data, c, i + 1, n);
    }
  }

  // ---------------------------------------------------------------------
  // The recursive data header
  // ---------------------------------------------------------------------

  /** `n_params = read_int(fh)` followed by the parameter loop. */
  function ParamTableAt(data: seq<Byte>, c: Cursor): (r: Result<Parsed<seq<Param>>>)
    requires Within(data, c)
    ensures r.Ok? ==> Tracked(data, c, r.value.rest) && r.value.rest.pos >= c.pos + 4
    ensures r.Ok? ==> UniqueNames(r.value.value)
  {
    var n :- IntAt(data, c, Big, I32);
    ParamsAt(data, n.rest, Times(n.value))
  }

  /** The parameter table is an int32 count followed by that many
      parameters (none for a negative count). */
  lemma ParamTableLayout(data: seq<Byte>, c: Cursor)
    requires Within(data, c)
    ensures ParamTableAt(data, c).Ok? ==> c.pos + 4 <= |data|
    ensures c.pos + 4 <= |data| ==>
      ParamTableAt(data, c) == ParamsAt(data, Advance(c, 4), Times(BeInt(data, c.pos, I32)))
  {
    if c.pos + 4 <= |data| {
      IntAtBe(data, c, I32);
    }
  }

  /** `read_locale` joined by `read_data_header`: `loc[:2] + '-' + loc[3:]`. */
  function Locale(loc: string): (r: string)
    ensures |loc| >= 3 ==> r == loc[..2] + "-" + loc[3..]
    ensures |loc| < 3 ==> r == (if |loc| < 2 then loc else loc[..2]) + "-"
  {
    (if |loc| < 2 then loc else loc[..2]) + "-" + (if |loc| < 3 then "" else loc[3..])
  }

  /** The fields of `read_data_header` before its parents: the type and
      file identifiers, the creation time, the locale and `n_params`
      parameters. The header itself is these with no parents yet. */
  function HeaderFieldsAt(data: seq<Byte>, c: Cursor): (r: Result<Parsed<DataHeader>>)
    requires Within(data, c)
    ensures r.Ok? ==> Tracked(data, c, r.value.rest) && r.value.rest.pos > c.pos
    ensures r.Ok? ==> r.value.value.parents == [] && UniqueNames(r.value.value.params)
  {
    var typeId :- RawAt(data, c, Big);
    var fileId :- RawAt(data, typeId.rest, Big);
    var time :- WStringAt(data, fileId.rest);
    var loc :- WStringAt(data, time.rest);
    var ps :- ParamTableAt(data, loc.rest);
    Ok(Parsed(DataHeader(typeId.value, fileId.value, time.value, Locale(loc.value), ps.value, []), ps.rest))
  }

  /** The header fields are read in the order data type id, file id,
      creation time, locale and parameters: each id is the bytes after its
      length field, and the parameter count is the int32 after the locale. */
  lemma HeaderFieldsLayout(data: seq<Byte>, c: Cursor)
    requires Within(data, c) && HeaderFieldsAt(data, c).Ok?
    ensures RawAt(data, c, Big).Ok?
    ensures var typeId := RawAt(data, c, Big).value;
            c.pos + 4 <= typeId.rest.pos && typeId.value == data[c.pos + 4 .. typeId.rest.pos] &&
            RawAt(data, typeId.rest, Big).Ok? &&
            var fileId := RawAt(data, typeId.rest, Big).value;
            typeId.rest.pos + 4 <= fileId.rest.pos && fileId.value == data[typeId.rest.pos + 4 .. fileId.rest.pos] &&
            WStringAt(data, fileId.rest).Ok? &&
            var time := WStringAt(data, fileId.rest).value;
            WStringAt(data, time.rest).Ok? &&
            var loc := WStringAt(data, time.rest).value;
            ParamTableAt(data, loc.rest).Ok? &&
            var ps := ParamTableAt(data, loc.rest).value;
            HeaderFieldsAt(data, c).value ==
              Parsed(DataHeader(typeId.value, fileId.value, time.value, Locale(loc.value), ps.value, []), ps.rest)
  {
    var typeId := RawAt(data, c, Big).value;
    RawAtLength(data, c, Big);
    RawAtLength(data, typeId.rest, Big);
  }

  /** A header and all its ancestors have distinct parameter names. */
  predicate AllUnique(h: DataHeader) {
    UniqueNames(h.params) && forall i :: 0 <= i < |h.parents| ==> AllUnique(h.parents[i])
  }

  /** `read_data_header`: its fields, then `num_parents` headers of the
      same layout, each read by this same function. Every header read, at
      any depth, has distinct parameter names. */
  function DataHeaderAt(data: seq<Byte>, c: Cursor): (r: Result<Parsed<DataHeader>>)
    requires Within(data, c)
    ensures r.Ok? ==> Tracked(data, c, r.value.rest) && r.value.rest.pos > c.pos
    ensures r.Ok? ==> AllUnique(r.value.value)
    decreases |data| - c.pos, 0
  {
    var fields :- HeaderFieldsAt(data, c);
    var m :- IntAt(data, fields.rest, Big, I32);
    var parents :- HeadersAt(data, m.rest, Times(m.value));
    Ok(Parsed(fields.value.(parents := parents.value), parents.rest))
  }

  /** The parent-header loop: the first `n` parent headers, in file order. */
  function HeadersAt(data: seq<Byte>, c: Cursor, n: nat): (r: Result<Parsed<seq<DataHeader>>>)
    requires Within(data, c)
    ensures r.Ok? ==> Tracked(data, c, r.value.rest) && |r.value.value| == n
    ensures r.Ok? ==> forall i :: 0 <= i < n ==> AllUnique(r.value.value[i])
    decreases |data| - c.pos, n
  {
    if n == 0 then Ok(Parsed([], c))
    else
      var prev :- HeadersAt(data, c, n - 1);
      var h :- DataHeaderAt(data, prev.rest);
      Ok(Parsed(prev.value + [h.value], h.rest))
  }

  /** One more parent header extends the list read so far. */
  lemma HeadersStep(data: seq<Byte>, c: Cursor, i: nat, hs: seq<DataHeader>, mid: Cursor, h: DataHeader, after: Cursor)
    requires Within(data, c) && HeadersAt(data, c, i) == Ok(Parsed(hs, mid))
    requires DataHeaderAt(data, mid) == Ok(Parsed(h, after))
    ensures HeadersAt(data, c, i + 1) == Ok(Parsed(hs + [h], after))
  {
  }

  lemma {:induction false} HeadersErr(data: seq<Byte>, c: Cursor, i: nat, n: nat)
    requires Within(data, c) && i <= n
    ensures HeadersAt(data, c, i).Err? ==> HeadersAt(data, c, n) == Err(HeadersAt(data, c, i).error)
    decreases n - i
  {
    if i < n {
      HeadersErr(data, c, i + 1, n);
    }
  }

  // ---------------------------------------------------------------------
  // Columns, values and rows
  // ---------------------------------------------------------------------

  /** A column type code is a signed byte. */
  predicate SignedByteCode(col: Column) {
    -128 <= col.valueType < 128
  }

  /** `read_col`: a name, a signed type byte and a size. */
  function ColumnAt(data: seq<Byte>, c: Cursor): (r: Result<Parsed<Column>>)
    requires Within(data, c)
    ensures r.Ok? ==> Tracked(data, c, r.value.rest) && SignedByteCode(r.value.value)
  {
    var name :- WStringAt(data, c);
    var t :- IntAt(data, name.rest, Big, I8);
    var size :- IntAt(data, t.rest, Big, I32);
    Ok(Parsed(Column(name.value, t.value, size.value), size.rest))
  }

  /** A column is its name, then the signed type byte and the int32 size
      that follow the name. */
  lemma ColumnLayout(data: seq<Byte>, c: Cursor)
    requires Within(data, c) && ColumnAt(data, c).Ok?
    ensures WStringAt(data, c).Ok?
    ensures var name := WStringAt(data, c).value;
            var p := name.rest.pos;
            p + 5 <= |data| &&
            ColumnAt(data, c).value ==
              Parsed(Column(name.value, BeInt(data, p, I8), BeInt(data, p + 1, I32)), Advance(name.rest, 5))
  {
    var name := WStringAt(data, c).value;
    IntAtBe(data, name.rest, I8);
    IntAtBe(data, Advance(name.rest, 1), I32);
  }

  /** The column loop of `read_data_set`: the first `n` columns, every
      type code a signed byte. */
  function ColumnsAt(data: seq<Byte>, c: Cursor, n: nat): (r: Result<Parsed<seq<Column>>>)
    requires Within(data, c)
    ensures r.Ok? ==> Tracked(data, c, r.value.rest) && |r.value.value| == n
    ensures r.Ok? ==> forall j :: 0 <= j < n ==> SignedByteCode(r.value.value[j])
    decreases n
  {
    if n == 0 then Ok(Parsed([], c))
    else
      var prev :- ColumnsAt(data, c, n - 1);
      var col :- ColumnAt(data, prev.rest);
      Ok(Parsed(prev.value + [col.value], col.rest))
  }

  /** `n_cols = read_uint(fh)` followed by the column loop. */
  function ColumnTableAt(data: seq<Byte>, c: Cursor): (r: Result<Parsed<seq<Column>>>)
    requires Within(data, c)
    ensures r.Ok? ==> Tracked(data, c, r.value.rest) && r.value.rest.pos >= c.pos + 4
  {
    var n :- IntAt(data, c, Big, U32);
    ColumnsAt(data, n.rest, Times(n.value))
  }

  /** The column table is a uint32 count followed by that many columns. */
  lemma ColumnTableLayout(data: seq<Byte>, c: Cursor)
    requires Within(data, c)
    ensures ColumnTableAt(data, c).Ok? ==> c.pos + 4 <= |data|
    ensures c.pos + 4 <= |data| ==>
      ColumnTableAt(data, c) == ColumnsAt(data, Advance(c, 4), Times(BeInt(data, c.pos, U32)))
  {
    if c.pos + 4 <= |data| {
      IntAtBe(data, c, U32);
    }
  }

  lemma {:induction false} ColumnsErr(data: seq<Byte>, c: Cursor, i: nat, n: nat)
    requires Within(data, c) && i <= n
    ensures ColumnsAt(data, c, i).Err? ==> ColumnsAt(data, c, n) == Err(ColumnsAt(data, c, i).error)
    decreases n - i
  {
    if i < n {
      ColumnsErr(data, c, i + 1, n);
    }
  }

  /** `VALUE_TYPES[code]`, with Python's indexing from the end for
      negative codes; None is the IndexError. */
  function ColumnKindOf(code: int): (r: Option<ColumnKind>)
    ensures r.Some? <==> -9 <= code < 9
  {
    var i := if code < 0 then code + 9 else code;
    if 0 <= i < 9 then
      Some([IntColumn(I8), IntColumn(U8), IntColumn(I16), IntColumn(U16), IntColumn(I32), IntColumn(U32),
            FloatColumn, StringColumn, WideStringColumn][i])
    else None
  }

  /** `v` is a value that a column of type `code` can hold. */
  predicate Fits(code: int, v: Value) {
    match ColumnKindOf(code)
    case None => false
    case Some(IntColumn(k)) => v.Int? && InRange(k, v.i)
    case Some(FloatColumn) => v.Real?
    case Some(StringColumn) => v.Bytes?
    case Some(WideStringColumn) => v.Text?
  }

  /** `VALUE_TYPES[code](fh)`: one value, read as its column's type says,
      and so one that a column of that type can hold. */
  function ValueAt(data: seq<Byte>, c: Cursor, code: int): (r: Result<Parsed<Value>>)
    requires Within(data, c)
    ensures r.Ok? ==> Tracked(data, c, r.value.rest) && Fits(code, r.value.value)
  {
    match ColumnKindOf(code)
    case None => Err(BadValueType(code))
    case Some(IntColumn(k)) =>
      var v :- IntAt(data, c, Big, k);
      Ok(Parsed(Int(v.value), v.rest))
    case Some(FloatColumn) =>
      var v :- FloatAt(data, c, Big);
      Ok(Parsed(Real(v.value), v.rest))
    case Some(StringColumn) =>
      var v :- RawAt(data, c, Big);
      Ok(Parsed(Bytes(v.value), v.rest))
    case Some(WideStringColumn) =>
      var v :- WStringAt(data, c);
      Ok(Parsed(Text(v.value), v.rest))
  }

  /** The IndexError of VALUE_TYPES is raised exactly for a type code
      outside -9..8: no reader of a valid code fails with it. */
  lemma ValueTypeError(data: seq<Byte>, c: Cursor, code: int)
    requires Within(data, c)
    ensures ValueAt(data, c, code) == Err(BadValueType(code)) <==> ColumnKindOf(code).None?
  {
    match ColumnKindOf(code)
    case None =>
    case Some(IntColumn(k)) =>
    case Some(FloatColumn) =>
    case Some(StringColumn) =>
    case Some(WideStringColumn) =>
      WStringFacts(data, c);
  }

  /** `vs` are values for the first `j` columns, each fitting its column. */
  predicate PrefixFits(cols: seq<Column>, vs: seq<Value>, j: nat) {
    j <= |cols| && |vs| == j && forall t :: 0 <= t < j ==> Fits(cols[t].valueType, vs[t])
  }

  predicate RowFits(cols: seq<Column>, row: seq<Value>) {
    PrefixFits(cols, row, |cols|)
  }

  /** The value loop of one row from column `j` on, after the values in
      `acc` were read: the loop of `read_data_set` as it runs, stopping at
      the first value that cannot be read. */
  function RowFrom(data: seq<Byte>, cols: seq<Column>, j: nat, acc: Parsed<seq<Value>>): (r: Result<Parsed<seq<Value>>>)
    requires Within(data, acc.rest) && j <= |cols|
    ensures r.Ok? ==> Tracked(data, acc.rest, r.value.rest)
    ensures r.Ok? && PrefixFits(cols, acc.value, j) ==> RowFits(cols, r.value.value)
    decreases |cols| - j
  {
    if j == |cols| then Ok(acc)
    else
      var v :- ValueAt(data, acc.rest, cols[j].valueType);
      var vs := acc.value + [v.value];
      assert PrefixFits(cols, acc.value, j) ==> PrefixFits(cols, vs, j + 1);
      RowFrom(data, cols, j + 1, Parsed(vs, v.rest))
  }

  /** One row: a value for every column, in column order, each of the
      column's type. */
  function RowAt(data: seq<Byte>, c: Cursor, cols: seq<Column>): (r: Result<Parsed<seq<Value>>>)
    requires Within(data, c)
    ensures r.Ok? ==> Tracked(data, c, r.value.rest) && RowFits(cols, r.value.value)
  {
    RowFrom(data, cols, 0, Parsed([], c))
  }

  /** The row loop of `read_data_set`: the first `n` rows, each a tuple of
      one value per column. */
  function RowsAt(data: seq<Byte>, c: Cursor, cols: seq<Column>, n: nat): (r: Result<Parsed<seq<seq<Value>>>>)
    requires Within(data, c)
    ensures r.Ok? ==> Tracked(data, c, r.value.rest) && |r.value.value| == n
    ensures r.Ok? ==> forall i :: 0 <= i < n ==> RowFits(cols, r.value.value[i])
    decreases n
  {
    if n == 0 then Ok(Parsed([], c))
    else
      var prev :- RowsAt(data, c, cols, n - 1);
      var row :- RowAt(data, prev.rest, cols);
      Ok(Parsed(prev.value + [row.value], row.rest))
  }

  lemma {:induction false} RowsErr(data: seq<Byte>, c: Cursor, cols: seq<Column>, i: nat, n: nat)
    requires Within(data, c) && i <= n
    ensures RowsAt(data, c, cols, i).Err? ==> RowsAt(data, c, cols, n) == Err(RowsAt(data, c, cols, i).error)
    decreases n - i
  {
    if i < n {
      RowsErr(data, c, cols, i + 1, n);
    }
  }

  // ---------------------------------------------------------------------
  // Data sets, data groups and the file
  // ---------------------------------------------------------------------

  /** The fields of `read_data_set` up to the row count: data and next
      positions, name, parameters, columns, number of rows. */
  function DataSetHeadAt(data: seq<Byte>, c: Cursor): (r: Result<Parsed<DataSetHead>>)
    requires Within(data, c)
    ensures r.Ok? ==> Tracked(data, c, r.value.rest)
    ensures r.Ok? ==> UniqueNames(r.value.value.params)
    ensures r.Ok? ==> 0 <= r.value.value.numRows < 0x1_0000_0000 && 0 <= r.value.value.nextPos < 0x1_0000_0000
  {
    var dataPos :- IntAt(data, c, Big, U32);
    var nextPos :- IntAt(data, dataPos.rest, Big, U32);
    var name :- WStringAt(data, nextPos.rest);
    var ps :- ParamTableAt(data, name.rest);
    var cols :- ColumnTableAt(data, ps.rest);
    var rows :- IntAt(data, cols.rest, Big, U32);
    Ok(Parsed(DataSetHead(dataPos.value, nextPos.value, name.value, ps.value, cols.value, rows.value), rows.rest))
  }

  /** A data set starts with its data position and next position, two
      uint32, then its name, its parameter table and its column table, and
      ends with the uint32 number of rows. */
  lemma DataSetHeadLayout(data: seq<Byte>, c: Cursor)
    requires Within(data, c) && DataSetHeadAt(data, c).Ok?
    ensures c.pos + 8 <= |data| && WStringAt(data, Advance(c, 8)).Ok?
    ensures var h := DataSetHeadAt(data, c).value;
            var name := WStringAt(data, Advance(c, 8)).value;
            ParamTableAt(data, name.rest).Ok? &&
            var ps := ParamTableAt(data, name.rest).value;
            ColumnTableAt(data, ps.rest).Ok? &&
            var cols := ColumnTableAt(data, ps.rest).value;
            cols.rest.pos + 4 <= |data| &&
            h == Parsed(DataSetHead(BeInt(data, c.pos, U32), BeInt(data, c.pos + 4, U32), name.value,
                                    ps.value, cols.value, BeInt(data, cols.rest.pos, U32)),
                        Advance(cols.rest, 4))
  {
    IntAtBe(data, c, U32);
    IntAtBe(data, Advance(c, 4), U32);
    var name := WStringAt(data, Advance(c, 8)).value;
    var ps := ParamTableAt(data, name.rest).value;
    var cols := ColumnTableAt(data, ps.rest).value;
    IntAtBe(data, cols.rest, U32);
  }

  function ColumnNames(cols: seq<Column>): (r: seq<string>)
    ensures |r| == |cols|
    ensures forall j :: 0 <= j < |cols| ==> r[j] == cols[j].name
  {
    if |cols| == 0 then [] else [cols[0].name] + ColumnNames(cols[1..])
  }

  /** `CELDataSet.num_cols`. */
  function NumCols(ds: DataSet): nat {
    |ds.colNames|
  }

  /** `read_data_set`: the data set and its declared next position. */
  function DataSetAt(data: seq<Byte>, c: Cursor): (r: Result<Parsed<(DataSet, int)>>)
    requires Within(data, c)
    ensures r.Ok? ==> Tracked(data, c, r.value.rest) && DataSetHeadAt(data, c).Ok?
    ensures r.Ok? ==>
      var head := DataSetHeadAt(data, c).value.value;
      var ds := r.value.value.0;
      && |ds.rows| == head.numRows
      && NumCols(ds) == |head.cols|
      && (forall i :: 0 <= i < |ds.rows| ==> RowFits(head.cols, ds.rows[i]))
      && UniqueNames(ds.params)
      && r.value.value.1 == head.nextPos
  {
    var head :- DataSetHeadAt(data, c);
    var h := head.value;
    var rows :- RowsAt(data, head.rest, h.cols, Times(h.numRows));
    Ok(Parsed((DataSet(h.name, h.params, ColumnNames(h.cols), rows.value), h.nextPos), rows.rest))
  }

  /** The check after each data set: the counter must be at the declared
      next position or one byte short of it, and in the second case exactly
      one byte is skipped. */
  function AlignAt(data: seq<Byte>, c: Cursor, nextPos: int): (r: Result<Parsed<()>>)
    requires Within(data, c)
    ensures r.Ok? <==> nextPos == c.count || (nextPos == c.count + 1 && c.pos < |data|)
    ensures r.Ok? ==> r.value.rest == Cursor(c.pos + (nextPos - c.count), nextPos)
  {
    var gap := nextPos - c.count;
    if gap == 0 then Ok(Parsed((), c))
    else if gap == 1 then
      var skipped :- FieldAt(data, c, 1);
      Ok(Parsed((), skipped.rest))
    else Err(OffsetMismatch(nextPos, c.count))
  }

  /** `assert declared == read[0]`. */
  function Expect(declared: int, c: Cursor): (r: Result<()>)
    ensures r.Ok? <==> declared == c.count
  {
    if declared == c.count then Ok(()) else Err(OffsetMismatch(declared, c.count))
  }

  /** The data set loop of `read_data_group`: the first `n` data sets, each
      followed by the alignment check against the position it declares. */
  function DataSetsAt(data: seq<Byte>, c: Cursor, n: nat): (r: Result<Parsed<seq<DataSet>>>)
    requires Within(data, c)
    ensures r.Ok? ==> Tracked(data, c, r.value.rest) && |r.value.value| == n
    decreases n
  {
    if n == 0 then Ok(Parsed([], c))
    else
      var prev :- DataSetsAt(data, c, n - 1);
      var ds :- DataSetAt(data, prev.rest);
      var aligned :- AlignAt(data, ds.rest, ds.value.1);
      Ok(Parsed(prev.value + [ds.value.0], aligned.rest))
  }

  lemma {:induction false} DataSetsErr(data: seq<Byte>, c: Cursor, i: nat, n: nat)
    requires Within(data, c) && i <= n
    ensures DataSetsAt(data, c, i).Err? ==> DataSetsAt(data, c, n) == Err(DataSetsAt(data, c, i).error)
    decreases n - i
  {
    if i < n {
      DataSetsErr(data, c, i + 1, n);
    }
  }

  /** After every data set of a group the counter stands at the position
      that data set declared for its successor. */
  lemma {:induction false} DataSetsAligned(data: seq<Byte>, c: Cursor, n: nat)
    requires Within(data, c) && n > 0 && DataSetsAt(data, c, n).Ok?
    ensures
      var prev := DataSetsAt(data, c, n - 1).value;
      DataSetsAt(data, c, n).value.rest.count == DataSetAt(data, prev.rest).value.value.1
  {
  }

  /** The fields at the start of `read_data_group`. */
  function GroupHeadAt(data: seq<Byte>, c: Cursor): (r: Result<Parsed<GroupHead>>)
    requires Within(data, c)
    ensures r.Ok? ==> Tracked(data, c, r.value.rest)
  {
    var nextPos :- IntAt(data, c, Big, U32);
    var dataSetPos :- IntAt(data, nextPos.rest, Big, U32);
    var n :- IntAt(data, dataSetPos.rest, Big, I32);
    var name :- WStringAt(data, n.rest);
    Ok(Parsed(GroupHead(nextPos.value, dataSetPos.value, n.value, name.value), name.rest))
  }

  /** A data group starts with its next position and its first data set's
      position, two uint32, then the int32 number of data sets and the
      group's name. */
  lemma GroupHeadLayout(data: seq<Byte>, c: Cursor)
    requires Within(data, c) && GroupHeadAt(data, c).Ok?
    ensures c.pos + 12 <= |data| && WStringAt(data, Advance(c, 12)).Ok?
    ensures var h := GroupHeadAt(data, c).value;
            var name := WStringAt(data, Advance(c, 12)).value;
            && h.value == GroupHead(BeInt(data, c.pos, U32), BeInt(data, c.pos + 4, U32), BeInt(data, c.pos + 8, I32), name.value)
            && h.rest == name.rest
  {
    IntAtBe(data, c, U32);
    IntAtBe(data, Advance(c, 4), U32);
    IntAtBe(data, Advance(c, 8), I32);
  }

  /** `read_data_group`: its head, the check that the counter is at the
      declared first data set, then the data sets. */
  function DataGroupAt(data: seq<Byte>, c: Cursor): (r: Result<Parsed<DataGroup>>)
    requires Within(data, c)
    ensures r.Ok? ==> Tracked(data, c, r.value.rest)
  {
    var head :- GroupHeadAt(data, c);
    var _ :- Expect(head.value.dataSetPos, head.rest);
    var sets :- DataSetsAt(data, head.rest, Times(head.value.numDataSets));
    Ok(Parsed(DataGroup(head.value.name, sets.value), sets.rest))
  }

  /** A data group read without error: after its head the counter stood at
      the declared position of its first data set, and it holds as many
      data sets as the head declares (none for a negative count). */
  lemma DataGroupLayout(data: seq<Byte>, c: Cursor)
    requires Within(data, c) && DataGroupAt(data, c).Ok?
    ensures GroupHeadAt(data, c).Ok?
    ensures var head := GroupHeadAt(data, c).value;
            && head.rest.count == head.value.dataSetPos
            && DataGroupAt(data, c).value.value.name == head.value.name
            && |DataGroupAt(data, c).value.value.dataSets| == Times(head.value.numDataSets)
  {
  }

  /** The group loop of `read_cel`: the first `n` data groups. */
  function GroupsAt(data: seq<Byte>, c: Cursor, n: nat): (r: Result<Parsed<seq<DataGroup>>>)
    requires Within(data, c)
    ensures r.Ok? ==> Tracked(data, c, r.value.rest) && |r.value.value| == n
    decreases n
  {
    if n == 0 then Ok(Parsed([], c))
    else
      var prev :- GroupsAt(data, c, n - 1);
      var g :- DataGroupAt(data, prev.rest);
      Ok(Parsed(prev.value + [g.value], g.rest))
  }

  lemma {:induction false} GroupsErr(data: seq<Byte>, c: Cursor, i: nat, n: nat)
    requires Within(data, c) && i <= n
    ensures GroupsAt(data, c, i).Err? ==> GroupsAt(data, c, n) == Err(GroupsAt(data, c, i).error)
    decreases n - i
  {
    if i < n {
      GroupsErr(data, c, i + 1, n);
    }
  }

  /** `read_file_header`: magic byte 59, version byte 1, a signed group
      count and an unsigned first-group position: 10 bytes. */
  function FileHeaderAt(data: seq<Byte>, c: Cursor): (r: Result<Parsed<FileHeader>>)
    requires Within(data, c)
    ensures r.Ok? ==> r.value.rest == Cursor(c.pos + 10, c.count + 10) && c.pos + 10 <= |data|
  {
    var magic :- IntAt(data, c, Big, U8);
    if magic.value != MagicNumber then Err(BadMagic(magic.value))
    else
      var version :- IntAt(data, magic.rest, Big, U8);
      if version.value != Version then Err(BadVersion(version.value))
      else
        var n :- IntAt(data, version.rest, Big, I32);
        var pos :- IntAt(data, n.rest, Big, U32);
        Ok(Parsed(FileHeader(n.value, pos.value), pos.rest))
  }

  /** The file header is accepted exactly when the file has its ten bytes
      and starts with the magic byte and the version byte; a wrong magic
      byte is reported before anything else is looked at. */
  lemma FileHeaderAccepts(data: seq<Byte>)
    ensures FileHeaderAt(data, Start).Ok? <==> |data| >= 10 && data[0] == MagicNumber && data[1] == Version
    ensures |data| >= 1 && data[0] != MagicNumber ==> FileHeaderAt(data, Start) == Err(BadMagic(data[0]))
  {
    if |data| >= 1 {
      FieldContent(data, Start, Big, U8);
    }
    if |data| >= 2 {
      FieldContent(data, Cursor(1, 1), Big, U8);
    }
  }

  /** `CEL.read_cel` on the bytes of a file: file header, data header, the
      check that the counter is at the declared first group, then the
      groups. Bytes after the last group are not looked at. */
  function CelAt(data: seq<Byte>): (r: Result<Parsed<Cel>>)
    ensures r.Ok? ==> Tracked(data, Start, r.value.rest)
  {
    var fh :- FileHeaderAt(data, Start);
    var dh :- DataHeaderAt(data, fh.rest);
    var _ :- Expect(fh.value.firstGroupPos, dh.rest);
    var groups :- GroupsAt(data, dh.rest, Times(fh.value.numDataGroups));
    Ok(Parsed(Cel(dh.value, groups.value), groups.rest))
  }

  /** A file read without error starts with the magic byte and the version
      byte; after the data header the counter stood at the declared
      position of the first group, and there are as many groups as the file
      header declares. */
  lemma CelLayout(data: seq<Byte>)
    requires CelAt(data).Ok?
    ensures |data| >= 10 && data[0] == MagicNumber && data[1] == Version
    ensures FileHeaderAt(data, Start).Ok?
    ensures var fh := FileHeaderAt(data, Start).value;
            && DataHeaderAt(data, fh.rest).Ok?
            && DataHeaderAt(data, fh.rest).value.rest.count == fh.value.firstGroupPos
            && CelAt(data).value.value.header == DataHeaderAt(data, fh.rest).value.value
            && |CelAt(data).value.value.dataGroups| == Times(fh.value.numDataGroups)
  {
    FileHeaderAccepts(data);
  }

  // ---------------------------------------------------------------------
  // Lookups
  // ---------------------------------------------------------------------

  /** `CELDataGroup.get_data_set_by_name` on the group's data sets: the
      first one whose name starts with `prefix`. */
  function DataSetByName(sets: seq<DataSet>, prefix: string): (r: Result<DataSet>)
    ensures r.Ok? <==> exists i :: 0 <= i < |sets| && StartsWith(sets[i].name, prefix)
    ensures r.Ok? ==> exists i :: 0 <= i < |sets| && r.value == sets[i]
                        && StartsWith(sets[i].name, prefix)
                        && forall j :: 0 <= j < i ==> !StartsWith(sets[j].name, prefix)
    ensures r.Err? ==> r.error == NoSuchDataSet
  {
    if |sets| == 0 then Err(NoSuchDataSet)
    else if StartsWith(sets[0].name, prefix) then Ok(sets[0])
    else
      var r := DataSetByName(sets[1..], prefix);
      if r.Ok? then
        var i :| 0 <= i < |sets| - 1 && r.value == sets[1..][i] && StartsWith(sets[1..][i].name, prefix)
                 && forall j :: 0 <= j < i ==> !StartsWith(sets[1..][j].name, prefix);
        assert forall j :: 0 <= j < i + 1 ==> !StartsWith(sets[j].name, prefix) by {
          forall j | 0 <= j < i + 1 ensures !StartsWith(sets[j].name, prefix) {
            if j > 0 { assert sets[j] == sets[1..][j - 1]; }
          }
        }
        r
      else
        assert forall i :: 1 <= i < |sets| ==> sets[i] == sets[1..][i - 1];
        r
  }

  /** `CEL.get_data_group_by_name` on the file's groups: the first group
      with exactly that name. */
  function DataGroupByName(groups: seq<DataGroup>, name: string): (r: Result<DataGroup>)
    ensures r.Ok? <==> exists i :: 0 <= i < |groups| && groups[i].name == name
    ensures r.Ok? ==> exists i :: 0 <= i < |groups| && r.value == groups[i] && groups[i].name == name
                        && forall j :: 0 <= j < i ==> groups[j].name != name
    ensures r.Err? ==> r.error == NoSuchDataGroup
  {
    if |groups| == 0 then Err(NoSuchDataGroup)
    else if groups[0].name == name then Ok(groups[0])
    else
      var r := DataGroupByName(groups[1..], name);
      if r.Ok? then
        var i :| 0 <= i < |groups| - 1 && r.value == groups[1..][i] && groups[1..][i].name == name
                 && forall j :: 0 <= j < i ==> groups[1..][j].name != name;
        assert forall j :: 0 <= j < i + 1 ==> groups[j].name != name by {
          forall j | 0 <= j < i + 1 ensures groups[j].name != name {
            if j > 0 { assert groups[j] == groups[1..][j - 1]; }
          }
        }
        r
      else
        assert forall i :: 1 <= i < |groups| ==> groups[i] == groups[1..][i - 1];
        r
  }

  /** `DataGroup.get_data_set_by_name`: the loop over the group's data
      sets, returning the first whose name starts with `prefix`. */
  method GetDataSetByName(group: DataGroup, prefix: string) returns (r: Result<DataSet>)
    ensures r == DataSetByName(group.dataSets, prefix)
  {
    var sets := group.dataSets;
    var i := 0;
    while i < |sets|
      invariant 0 <= i <= |sets|
      invariant DataSetByName(sets[i..], prefix) == DataSetByName(sets, prefix)
    {
      if StartsWith(sets[i].name, prefix) {
        return Ok(sets[i]);
      }
      assert sets[i..][1..] == sets[i + 1..];
      i := i + 1;
    }
    return Err(NoSuchDataSet);
  }

  /** `CEL.get_data_group_by_name`: the loop over the file's groups,
      returning the first with exactly that name. */
  method GetDataGroupByName(cel: Cel, name: string) returns (r: Result<DataGroup>)
    ensures r == DataGroupByName(cel.dataGroups, name)
  {
    var groups := cel.dataGroups;
    var i := 0;
    while i < |groups|
      invariant 0 <= i <= |groups|
      invariant DataGroupByName(groups[i..], name) == DataGroupByName(groups, name)
    {
      if groups[i].name == name {
        return Ok(groups[i]);
      }
      assert groups[i..][1..] == groups[i + 1..];
      i := i + 1;
    }
    return Err(NoSuchDataGroup);
  }

  // ---------------------------------------------------------------------
  // The readers of `CEL.read_cel`, each proved to return what its
  // function above says and to leave the stream where it says.
  // ---------------------------------------------------------------------

  method ReadWString(s: Stream) returns (r: Result<string>)
    requires s.Valid()
    modifies s
    ensures s.Valid() && Pack(r, s.Cur()) == WStringAt(s.data, old(s.Cur()))
  {
    var n :- s.ReadInt(Big, I32);
    var b := s.Read(2 * n);
    s.count := s.count + 2 * n;
    var text :- DecodeUtf16(b);
    return Ok(text);
  }

  method ReadParam(s: Stream) returns (r: Result<Param>)
    requires s.Valid()
    modifies s
    ensures s.Valid() && Pack(r, s.Cur()) == ParamAt(s.data, old(s.Cur()))
  {
    var name :- ReadWString(s);
    var raw :- s.ReadRaw(Big);
    var tag :- ReadWString(s);
    var v :- TypedValue(tag, raw);
    return Ok(Param(name, v));
  }

  method ReadParams(s: Stream, n: int) returns (r: Result<seq<Param>>)
    requires s.Valid()
    modifies s
    ensures s.Valid() && Pack(r, s.Cur()) == ParamsAt(s.data, old(s.Cur()), Times(n))
  {
    ghost var start := s.Cur();
    var params: seq<Param> := [];
    var i := 0;
    while i < n
      invariant 0 <= i <= Times(n) && s.Valid()
      invariant ParamsAt(s.data, start, i) == Ok(Parsed(params, s.Cur()))
    {
      var p := ReadParam(s);
      if p.Err? {
        ParamsErr(s.data, start, i + 1, Times(n));
        return Err(p.error);
      }
      params := Update(params, p.value);
      i := i + 1;
    }
    assert i == Times(n);
    return Ok(params);
  }

  /** A parameter count and the parameters it counts. */
  method ReadParamTable(s: Stream) returns (r: Result<seq<Param>>)
    requires s.Valid()
    modifies s
    ensures s.Valid() && Pack(r, s.Cur()) == ParamTableAt(s.data, old(s.Cur()))
  {
    var n :- s.ReadInt(Big, I32);
    r := ReadParams(s, n);
  }

  method ReadHeaderFields(s: Stream) returns (r: Result<DataHeader>)
    requires s.Valid()
    modifies s
    ensures s.Valid() && Pack(r, s.Cur()) == HeaderFieldsAt(s.data, old(s.Cur()))
  {
    var typeId :- s.ReadRaw(Big);
    var fileId :- s.ReadRaw(Big);
    var time :- ReadWString(s);
    var loc :- ReadWString(s);
    var params :- ReadParamTable(s);
    return Ok(DataHeader(typeId, fileId, time, Locale(loc), params, []));
  }

  /** `read_data_header`, calling itself for the parent headers. */
  method ReadDataHeader(s: Stream) returns (r: Result<DataHeader>)
    requires s.Valid()
    modifies s
    ensures s.Valid() && Pack(r, s.Cur()) == DataHeaderAt(s.data, old(s.Cur()))
    decreases |s.data| - s.pos, 0
  {
    var header :- ReadHeaderFields(s);
    var m :- s.ReadInt(Big, I32);
    var parents :- ReadParents(s, m);
    return Ok(header.(parents := parents));
  }

  /** The loop `for i in range(num_parents)` of `read_data_header`. */
  method ReadParents(s: Stream, n: int) returns (r: Result<seq<DataHeader>>)
    requires s.Valid()
    modifies s
    ensures s.Valid() && Pack(r, s.Cur()) == HeadersAt(s.data, old(s.Cur()), Times(n))
    decreases |s.data| - s.pos, 1
  {
    ghost var start := s.Cur();
    var parents: seq<DataHeader> := [];
    var i := 0;
    while i < n
      invariant 0 <= i <= Times(n) && s.Valid() && s.pos >= old(s.pos)
      invariant HeadersAt(s.data, start, i) == Ok(Parsed(parents, s.Cur()))
    {
      ghost var before := s.Cur();
      var parent := ReadDataHeader(s);
      if parent.Err? {
        HeadersErr(s.data, start, i + 1, Times(n));
        return Err(parent.error);
      }
      HeadersStep(s.data, start, i, parents, before, parent.value, s.Cur());
      parents := parents + [parent.value];
      i := i + 1;
    }
    assert i == Times(n);
    return Ok(parents);
  }

  method ReadColumn(s: Stream) returns (r: Result<Column>)
    requires s.Valid()
    modifies s
    ensures s.Valid() && Pack(r, s.Cur()) == ColumnAt(s.data, old(s.Cur()))
  {
    var name :- ReadWString(s);
    var t :- s.ReadInt(Big, I8);
    var size :- s.ReadInt(Big, I32);
    return Ok(Column(name, t, size));
  }

  /** The column loop of `read_data_set`. */
  method ReadColumns(s: Stream, n: int) returns (r: Result<seq<Column>>)
    requires s.Valid()
    modifies s
    ensures s.Valid() && Pack(r, s.Cur()) == ColumnsAt(s.data, old(s.Cur()), Times(n))
  {
    ghost var start := s.Cur();
    var cols: seq<Column> := [];
    var i := 0;
    while i < n
      invariant 0 <= i <= Times(n) && s.Valid()
      invariant ColumnsAt(s.data, start, i) == Ok(Parsed(cols, s.Cur()))
    {
      var col := ReadColumn(s);
      if col.Err? {
        ColumnsErr(s.data, start, i + 1, Times(n));
        return Err(col.error);
      }
      cols := cols + [col.value];
      i := i + 1;
    }
    assert i == Times(n);
    return Ok(cols);
  }

  /** A column count and the columns it counts. */
  method ReadColumnTable(s: Stream) returns (r: Result<seq<Column>>)
    requires s.Valid()
    modifies s
    ensures s.Valid() && Pack(r, s.Cur()) == ColumnTableAt(s.data, old(s.Cur()))
  {
    var n :- s.ReadInt(Big, U32);
    r := ReadColumns(s, n);
  }

  method ReadValue(s: Stream, code: int) returns (r: Result<Value>)
    requires s.Valid()
    modifies s
    ensures s.Valid() && Pack(r, s.Cur()) == ValueAt(s.data, old(s.Cur()), code)
  {
    match ColumnKindOf(code)
    case None =>
      return Err(BadValueType(code));
    case Some(IntColumn(k)) =>
      var v :- s.ReadInt(Big, k);
      return Ok(Int(v));
    case Some(FloatColumn) =>
      var v :- s.ReadFloat(Big);
      return Ok(Real(v));
    case Some(StringColumn) =>
      var v :- s.ReadRaw(Big);
      return Ok(Bytes(v));
    case Some(WideStringColumn) =>
      var v :- ReadWString(s);
      return Ok(Text(v));
  }

  /** One row: `for c in cols: d.append(VALUE_TYPES[c[1]](fh))`. */
  method ReadRow(s: Stream, cols: seq<Column>) returns (r: Result<seq<Value>>)
    requires s.Valid()
    modifies s
    ensures s.Valid() && Pack(r, s.Cur()) == RowAt(s.data, old(s.Cur()), cols)
  {
    ghost var start := s.Cur();
    var row: seq<Value> := [];
    var j := 0;
    while j < |cols|
      invariant 0 <= j <= |cols| && s.Valid()
      invariant RowFrom(s.data, cols, j, Parsed(row, s.Cur())) == RowAt(s.data, start, cols)
    {
      var v := ReadValue(s, cols[j].valueType);
      if v.Err? {
        return Err(v.error);
      }
      row := row + [v.value];
      j := j + 1;
    }
    return Ok(row);
  }

  /** The row loop of `read_data_set`. */
  method ReadRows(s: Stream, cols: seq<Column>, n: int) returns (r: Result<seq<seq<Value>>>)
    requires s.Valid()
    modifies s
    ensures s.Valid() && Pack(r, s.Cur()) == RowsAt(s.data, old(s.Cur()), cols, Times(n))
  {
    ghost var start := s.Cur();
    var rows: seq<seq<Value>> := [];
    var i := 0;
    while i < n
      invariant 0 <= i <= Times(n) && s.Valid()
      invariant RowsAt(s.data, start, cols, i) == Ok(Parsed(rows, s.Cur()))
    {
      var row := ReadRow(s, cols);
      if row.Err? {
        RowsErr(s.data, start, cols, i + 1, Times(n));
        return Err(row.error);
      }
      rows := rows + [row.value];
      i := i + 1;
    }
    assert i == Times(n);
    return Ok(rows);
  }

  /** `read_data_set`, with its declared next position. */
  method ReadDataSet(s: Stream) returns (r: Result<(DataSet, int)>)
    requires s.Valid()
    modifies s
    ensures s.Valid() && Pack(r, s.Cur()) == DataSetAt(s.data, old(s.Cur()))
  {
    var dataPos :- s.ReadInt(Big, U32);
    var nextPos :- s.ReadInt(Big, U32);
    var name :- ReadWString(s);
    var params :- ReadParamTable(s);
    var cols :- ReadColumnTable(s);
    var numRows :- s.ReadInt(Big, U32);
    assert DataSetHeadAt(s.data, old(s.Cur())) ==
      Ok(Parsed(DataSetHead(dataPos, nextPos, name, params, cols, numRows), s.Cur()));
    var rows :- ReadRows(s, cols, numRows);
    return Ok((DataSet(name, params, ColumnNames(cols), rows), nextPos));
  }

  method Align(s: Stream, nextPos: int) returns (r: Result<()>)
    requires s.Valid()
    modifies s
    ensures s.Valid() && Pack(r, s.Cur()) == AlignAt(s.data, old(s.Cur()), nextPos)
  {
    var gap := nextPos - s.count;
    if gap != 0 && gap != 1 {
      return Err(OffsetMismatch(nextPos, s.count));
    }
    if gap == 1 {
      var skipped := s.Read(1);
      if |skipped| == 0 {
        return Err(Truncated);
      }
      s.count := s.count + 1;
    }
    return Ok(());
  }

  method ReadGroupHead(s: Stream) returns (r: Result<GroupHead>)
    requires s.Valid()
    modifies s
    ensures s.Valid() && Pack(r, s.Cur()) == GroupHeadAt(s.data, old(s.Cur()))
  {
    var nextPos :- s.ReadInt(Big, U32);
    var dataSetPos :- s.ReadInt(Big, U32);
    var n :- s.ReadInt(Big, I32);
    var name :- ReadWString(s);
    return Ok(GroupHead(nextPos, dataSetPos, n, name));
  }

  /** The data set loop of `read_data_group`, with the alignment check and
      the one-byte skip after each data set. */
  method ReadDataSets(s: Stream, n: int) returns (r: Result<seq<DataSet>>)
    requires s.Valid()
    modifies s
    ensures s.Valid() && Pack(r, s.Cur()) == DataSetsAt(s.data, old(s.Cur()), Times(n))
  {
    ghost var start := s.Cur();
    var sets: seq<DataSet> := [];
    var i := 0;
    while i < n
      invariant 0 <= i <= Times(n) && s.Valid()
      invariant DataSetsAt(s.data, start, i) == Ok(Parsed(sets, s.Cur()))
    {
      var ds := ReadDataSet(s);
      if ds.Err? {
        DataSetsErr(s.data, start, i + 1, Times(n));
        return Err(ds.error);
      }
      var aligned := Align(s, ds.value.1);
      if aligned.Err? {
        DataSetsErr(s.data, start, i + 1, Times(n));
        return Err(aligned.error);
      }
      sets := sets + [ds.value.0];
      i := i + 1;
    }
    assert i == Times(n);
    return Ok(sets);
  }

  method ReadDataGroup(s: Stream) returns (r: Result<DataGroup>)
    requires s.Valid()
    modifies s
    ensures s.Valid() && Pack(r, s.Cur()) == DataGroupAt(s.data, old(s.Cur()))
  {
    var head :- ReadGroupHead(s);
    if head.dataSetPos != s.count {
      return Err(OffsetMismatch(head.dataSetPos, s.count));
    }
    var sets :- ReadDataSets(s, head.numDataSets);
    return Ok(DataGroup(head.name, sets));
  }

  /** The loop `for i in range(num_data_groups)` of `read_cel`. */
  method ReadGroups(s: Stream, n: int) returns (r: Result<seq<DataGroup>>)
    requires s.Valid()
    modifies s
    ensures s.Valid() && Pack(r, s.Cur()) == GroupsAt(s.data, old(s.Cur()), Times(n))
  {
    ghost var start := s.Cur();
    var groups: seq<DataGroup> := [];
    var i := 0;
    while i < n
      invariant 0 <= i <= Times(n) && s.Valid()
      invariant GroupsAt(s.data, start, i) == Ok(Parsed(groups, s.Cur()))
    {
      var g := ReadDataGroup(s);
      if g.Err? {
        GroupsErr(s.data, start, i + 1, Times(n));
        return Err(g.error);
      }
      groups := groups + [g.value];
      i := i + 1;
    }
    assert i == Times(n);
    return Ok(groups);
  }

  method ReadFileHeader(s: Stream) returns (r: Result<FileHeader>)
    requires s.Valid()
    modifies s
    ensures s.Valid() && Pack(r, s.Cur()) == FileHeaderAt(s.data, old(s.Cur()))
  {
    var magic :- s.ReadInt(Big, U8);
    if magic != MagicNumber {
      return Err(BadMagic(magic));
    }
    var version :- s.ReadInt(Big, U8);
    if version != Version {
      return Err(BadVersion(version));
    }
    var n :- s.ReadInt(Big, I32);
    var pos :- s.ReadInt(Big, U32);
    return Ok(FileHeader(n, pos));
  }

  /** `CEL.read_cel` on a file holding `data`. */
  method ReadCel(data: seq<Byte>) returns (r: Result<Cel>)
    ensures r == Unpack(CelAt(data))
  {
    var s := new Stream(data);
    var fh :- ReadFileHeader(s);
    var header :- ReadDataHeader(s);
    if fh.firstGroupPos != s.count {
      return Err(OffsetMismatch(fh.firstGroupPos, s.count));
    }
    var groups :- ReadGroups(s, fh.numDataGroups);
    return Ok(Cel(header, groups));
  }
}
