# pyaffy file decoders, modelled in Dafny

pyaffy reads Affymetrix microarray files. This project models its three
decoders and proves what they accept and what they return:

- **Command Console ("generic") CEL files**, `CEL.read_cel` in
  `pyaffy/old_api/cel/cel.py`. The file is big-endian. It holds:
  - a file header: magic byte 59, version byte 1, a group count and the
    offset of the first group;
  - a recursive data header with typed parameters and parent headers;
  - data groups of data sets, each with typed columns and rows.

  While decoding, a running counter `read[0]` is compared with the offsets
  the file declares.
- **Version-4 CEL files**, `CELParser._parse_cel_v4_intensities` in
  `pyaffy/old_api/cel/parser.py`. The file is little-endian. It holds:
  - the magic number 64 and version 4;
  - the grid size;
  - two tag/value blocks and the algorithm name;
  - four counts;
  - `cols * rows` ten-byte cell records, then the masked and outlier
    coordinates and the sub-grid records.

  `CELParser.parse_intensities` picks one of the two decoders by the
  file's first byte and returns the cell intensities.
- **GC3.0 expression CDF files**, `ExpCDF.read_cdf` in
  `pyaffy/old_api/cdf/expression.py`. This decoder reads:
  - the `[Chip]` header;
  - the QC probe sets from the `QC<N>` sections;
  - the expression probe sets from the `Unit<N>_Block` sections, where
    each pair of cell lines becomes one perfect-match (PM) and one
    mismatch (MM) probe;
  - the checks of each declared count.

The code is Python 2 code that imports `future`'s builtins, and the model
follows Python 2 wherever the two versions differ. In particular a byte
string that meets a text argument (`v2.rstrip(u'\x00')` under
`unicode_literals`) is first decoded as ASCII, and `int()` on text goes
through `long()`. `long()` skips Unicode whitespace around the number and
after its sign and accepts a trailing `L`, so the model's `int()` does too.
The counter `c` that `read_cdf` increments for each block section is kept
as `Tally.c` (`CdfExpression.CollectedBlocks` states its value); nothing
reads it.

## Modules

- `Common`:
  - the single `Error` type that replaces the exceptions the original
    raises, and `Result`/`Option`;
  - `str.split`, `str.join` and `str.replace` on characters;
  - the UTF-16-BE, ASCII and ISO-8859-1 text decoders;
  - `rstrip('\x00')`.
- `Primitives`: what `struct.unpack` gives for `b B h H i I` in both byte
  orders, the encoders that invert it, and the round trips between them.
  A float is kept as its 32 bits.
- `ByteStream`:
  - the state of an open file: a `Cursor` that holds the file position and
    the counter `read[0]`;
  - `fh.read(n)` with its short reads at the end of the file;
  - the fixed-width and length-prefixed fields;
  - a `Stream` class whose methods advance a cursor held in the object.

  Every method is proved equal to a specification function that works on
  values.
- `CommandConsole`: the decoder for generic-format files.
  - The specification functions are `...At(data, cursor)`.
  - The methods `Read...` work on a `Stream`. Each method's `ensures`
    states that it returns what its function returns and leaves the stream
    where the function says.
- `CelParser`: the version-4 decoder and the first-byte dispatch of
  `parse_intensities`.
- `CdfExpression`: the CDF interpreter. It works on sections that are
  already tokenised: each one is a name and its `key=value` lines, in file
  order.

## Model

| member | source | states |
|---|---|---|
| Common.Split | pyaffy/old_api/cdf/expression.py:151 | `valstr.split('\t')` gives at least one piece and no piece contains the separator |
| Common.Replace | pyaffy/old_api/cel/parser.py:114 | every occurrence of one character is replaced and every other character is kept |
| Common.JoinSplit | pyaffy/old_api/cel/parser.py:114 | `'\n'.join(raw.split(';'))` equals `raw` with every `;` turned into a line break |
| Common.DecodeUtf16Facts | pyaffy/old_api/cel/cel.py:152 | UTF-16-BE decoding yields at most one character per two bytes; it fails only on an odd byte count or an unpaired surrogate |
| Common.EncodeChar | pyaffy/old_api/cel/cel.py:152 | a character is encoded in two or four bytes |
| Common.EncodeUtf16 | pyaffy/old_api/cel/cel.py:152 | encoded text has an even length of between 2 and 4 bytes per character |
| Common.DecodeEncodeChar | pyaffy/old_api/cel/cel.py:152 | decoding one encoded character followed by more bytes gives that character followed by the decoding of the rest |
| Common.DecodeEncodeUtf16 | pyaffy/old_api/cel/cel.py:152 | decoding UTF-16-BE undoes encoding for every string |
| Common.DecodeAscii | pyaffy/old_api/cel/cel.py:153 | ASCII decoding keeps the length and fails only with `NotAscii` |
| Common.DecodeAsciiFacts | pyaffy/old_api/cel/cel.py:153 | ASCII decoding succeeds exactly when every byte is below 128, and then character i has the code of byte i |
| Common.Latin1 | pyaffy/old_api/cel/parser.py:105 | ISO-8859-1 decoding maps byte i to the character with code i, for every byte |
| Common.StripZeros | pyaffy/old_api/cel/cel.py:249 | removing the trailing zero bytes (what `rstrip('\x00')` does once the value is known to be ASCII) never lengthens its input |
| Common.DecodeUtf16Ascii | pyaffy/old_api/cel/cel.py:152 | on ASCII bytes, UTF-16-BE decoding succeeds exactly when the byte count is even, and code unit k is byte 2k·256 + byte 2k+1 |
| Common.StripZerosAsText | pyaffy/old_api/cel/cel.py:249-251 | stripping with a text argument succeeds exactly when every byte is below 128 (else `NotAscii`, Python 2's implicit ASCII decoding), and leaves ASCII bytes no longer than the input |
| Common.StripZerosFacts | pyaffy/old_api/cel/cel.py:249 | the result is a prefix of the input that does not end in a zero byte, and only zero bytes were removed |
| Primitives.Reverse | pyaffy/old_api/cel/parser.py:63-79 | element i of the reversal is element n-1-i |
| Primitives.BigEndianBytes | pyaffy/old_api/cel/cel.py:155-160 | the big-endian bytes of a number have the requested width |
| Primitives.Encode | pyaffy/old_api/cel/cel.py:155-160 | encoding a value of a `struct` integer format gives exactly that format's width (1, 2 or 4 bytes) |
| Primitives.BigEndianBound | pyaffy/old_api/cel/cel.py:155-160 | n bytes read big-endian are below 256^n |
| Primitives.BigEndianFirst | pyaffy/old_api/cel/cel.py:155-160 | the first byte is the most significant: value = b0 * 256^(n-1) + value of the rest |
| Primitives.LittleIsReversedBig | pyaffy/old_api/cel/parser.py:63-79 | reading little-endian is reading the reversed bytes big-endian |
| Primitives.SignBitBig | pyaffy/old_api/cel/cel.py:155-160 | a big-endian value lies in the upper half of its range exactly when its first byte is at least 128 |
| Primitives.SignBit | pyaffy/old_api/cel/parser.py:63-79 | in either byte order, the value lies in the upper half exactly when the most significant byte is at least 128 |
| Primitives.DecodeFacts | pyaffy/old_api/cel/cel.py:155-160 | `struct.unpack` of b/B/h/H/i/I lands in the format's range and agrees with the unsigned reading modulo 2^width; a signed result is negative exactly when the sign bit is set; an unsigned result equals the unsigned reading |
| Primitives.FloatBits | pyaffy/old_api/cel/cel.py:154 | a decoded float is the 32-bit pattern of its four bytes in the file's byte order |
| Primitives.BigEndianBytesRoundTrip | pyaffy/old_api/cel/cel.py:155-160 | a number below 256^w survives being written as w bytes and read back |
| Primitives.BigEndianBytesOf | pyaffy/old_api/cel/cel.py:155-160 | bytes survive being read as a number and written back |
| Primitives.DecodeEncode | pyaffy/old_api/cel/cel.py:155-160 | decoding inverts encoding for every value in a format's range, in both byte orders |
| Primitives.EncodeUnsigned | pyaffy/old_api/cel/cel.py:155-160 | the bytes of a negative value read unsigned are that value plus 2^width (two's complement) |
| Primitives.EncodeDecode | pyaffy/old_api/cel/cel.py:155-160 | encoding inverts decoding for every byte sequence of the format's width |
| Primitives.BytesOfUnsigned | pyaffy/old_api/cel/parser.py:63-79 | the unsigned reading in either byte order determines the bytes |
| Primitives.UnsignedOfDecode | pyaffy/old_api/cel/cel.py:155-160 | the signed reading plus 2^width when negative is the unsigned reading |
| Primitives.BigEndian32 | pyaffy/old_api/cel/cel.py:155-156 | `>I` is b0·2^24+b1·2^16+b2·2^8+b3, and `>i` is that minus 2^32 when b0 ≥ 128 |
| Primitives.LittleEndian32 | pyaffy/old_api/cel/parser.py:63-67 | `<I` is b0+b1·2^8+b2·2^16+b3·2^24, and `<i` is that minus 2^32 when b3 ≥ 128 |
| ByteStream.Take | pyaffy/old_api/cel/cel.py:164 | `fh.read(n)` returns n bytes, fewer at the end of the file, and the rest of the file for a negative n |
| ByteStream.Segment | pyaffy/old_api/cel/cel.py:164 | a segment inside the file has the requested length |
| ByteStream.SegmentIsSlice | pyaffy/old_api/cel/cel.py:164 | a segment is the slice of the file at that position |
| ByteStream.TakeWhole | pyaffy/old_api/cel/cel.py:164 | a read that fits returns exactly the slice at the position |
| ByteStream.FieldAt | pyaffy/old_api/cel/cel.py:162-188 | a fixed-width read succeeds exactly when the bytes are there (else `Truncated`), and then advances both the position and the counter by its width |
| ByteStream.IntAt | pyaffy/old_api/cel/cel.py:166-188 | an integer read succeeds exactly when its 1, 2 or 4 bytes are there, advances both by that width, and yields a value in the format's range |
| ByteStream.FieldContent | pyaffy/old_api/cel/cel.py:166-188 | the integer read is the one whose encoding is the bytes at the position |
| ByteStream.IntAtEncoded | pyaffy/old_api/cel/cel.py:166-188 | writing a value's encoding at a position makes the read there return that value |
| ByteStream.IntAtSlice | pyaffy/old_api/cel/cel.py:166-188 | the read value is `struct.unpack` of the slice at the position |
| ByteStream.FloatAt | pyaffy/old_api/cel/cel.py:162-164 | a float read succeeds exactly when four bytes are there and advances both by 4 |
| ByteStream.RawAt | pyaffy/old_api/cel/cel.py:190-194 | a length-prefixed read needs its 4-byte length, and keeps the counter in step with the position unless the file ran out |
| ByteStream.FloatAtSlice | pyaffy/old_api/cel/parser.py:81-83 | the float read is the decoding of the four bytes at the position |
| ByteStream.FloatAtBits | pyaffy/old_api/cel/cel.py:162-164 | a float's bits are the unsigned 32-bit integer at the same place |
| ByteStream.RawAtLength | pyaffy/old_api/cel/cel.py:190-194 | the counter advances by 4 + L for the declared length L even on a short read; the position advances by 4 plus the bytes actually read, which are L when L fits |
| ByteStream.TrackedTrans | pyaffy/old_api/cel/cel.py:150 | "the counter moved with the position" composes over consecutive reads |
| ByteStream.RawRoundTrip | pyaffy/old_api/cel/parser.py:97-101 | a payload written after its length is read back whole, and both cursors move by 4 + its length |
| ByteStream.Stream.constructor | pyaffy/old_api/cel/cel.py:150 | a freshly opened file is at position 0 with the counter at 0 |
| ByteStream.Stream.Read | pyaffy/old_api/cel/cel.py:164 | `fh.read(n)` on the object returns `Take` and moves the position by the bytes returned, leaving the counter alone |
| ByteStream.Stream.ReadField | pyaffy/old_api/cel/cel.py:162-188 | the method returns and moves to exactly what `FieldAt` says |
| ByteStream.Stream.ReadInt | pyaffy/old_api/cel/cel.py:166-188 | the method returns and moves to exactly what `IntAt` says |
| ByteStream.Stream.ReadFloat | pyaffy/old_api/cel/cel.py:162-164 | the method returns and moves to exactly what `FloatAt` says |
| ByteStream.Stream.ReadRaw | pyaffy/old_api/cel/cel.py:190-194 | the method returns and moves to exactly what `RawAt` says |
| CommandConsole.WStringAt | pyaffy/old_api/cel/cel.py:201-205 | `read_wstring` reads at least its 4-byte length and keeps the counter in step with the position |
| CommandConsole.WStringFacts | pyaffy/old_api/cel/cel.py:201-205 | a wide string moves the counter by 4 + 2L, and the position by the same when 2L bytes are there; it fails only on truncation or bad UTF-16 |
| CommandConsole.WStringRoundTrip | pyaffy/old_api/cel/cel.py:201-205 | a string written as its UTF-16 length and its encoding reads back as itself, consuming 4 + 2L bytes |
| CommandConsole.WStringEncoded | pyaffy/old_api/cel/cel.py:201-205 | any 2L bytes that decode to a text, preceded by L, read back as that text |
| CommandConsole.IntAtBe | pyaffy/old_api/cel/cel.py:155-160 | a big-endian integer field read at a cursor is `struct.unpack` of the bytes at the cursor's position, and advances both by its width |
| CommandConsole.WStringAtParts | pyaffy/old_api/cel/cel.py:201-205 | `read_wstring` is `read_int`, then `fh.read(2L)`, then UTF-16 decoding |
| CommandConsole.TypedValue | pyaffy/old_api/cel/cel.py:243-267 | an unknown type tag leaves the raw bytes unchanged |
| CommandConsole.TypedValueFacts | pyaffy/old_api/cel/cel.py:248-265 | an integer tag decodes only the leading 1, 2 or 4 bytes and fails exactly on a shorter value; the float tag takes the leading 4 bytes; text/plain and text/ascii fail with `NotAscii` on any byte above 127 (Python 2 decodes the value as ASCII before `rstrip`); otherwise text/plain succeeds exactly when the stripped value has an even length, code unit k being bytes 2k and 2k+1, and text/ascii always succeeds, character i having the code of byte i |
| CommandConsole.ParamAt | pyaffy/old_api/cel/cel.py:243-267 | a parameter reads at least three length fields and keeps the counter in step |
| CommandConsole.ParamLayout | pyaffy/old_api/cel/cel.py:243-267 | a parameter is its name (a wide string), then its raw value (the bytes after its length field), then its type tag; the entry is the name with the value decoded as the tag says |
| CommandConsole.Names | pyaffy/old_api/cel/cel.py:280-282 | one name per parameter |
| CommandConsole.NamesAt | pyaffy/old_api/cel/cel.py:280-282 | name i is the name of parameter i |
| CommandConsole.Update | pyaffy/old_api/cel/cel.py:282 | `OrderedDict.update` adds at most one entry |
| CommandConsole.UpdateNames | pyaffy/old_api/cel/cel.py:282 | a known name keeps its place; a new name is appended last |
| CommandConsole.UpdateLookup | pyaffy/old_api/cel/cel.py:282 | after the update the name maps to the new value and every other name is unchanged |
| CommandConsole.UpdateUnique | pyaffy/old_api/cel/cel.py:282 | the update keeps the names distinct |
| CommandConsole.ParamsAt | pyaffy/old_api/cel/cel.py:278-282 | `n_params` triplets give at most n entries with distinct names, the counter kept in step |
| CommandConsole.ParamsErr | pyaffy/old_api/cel/cel.py:281-282 | a failure at one parameter is the failure of the whole loop |
| CommandConsole.ParamTableAt | pyaffy/old_api/cel/cel.py:278-282 | the count and the parameter loop keep the counter in step, read at least the 4-byte count and give distinct names |
| CommandConsole.ParamTableLayout | pyaffy/old_api/cel/cel.py:278-282 | the parameter table is the int32 count at the position followed by that many parameters, none for a negative count |
| CommandConsole.Locale | pyaffy/old_api/cel/cel.py:220-222 | the locale is `loc[:2] + '-' + loc[3:]`, including for strings shorter than 3 |
| CommandConsole.HeaderFieldsAt | pyaffy/old_api/cel/cel.py:269-282 | the fields of a data header advance the position, keep the counter in step and give distinct parameter names |
| CommandConsole.HeaderFieldsLayout | pyaffy/old_api/cel/cel.py:269-282 | the header fields are read in the order type id, file id (each the bytes after its length field), creation time, locale and parameter table, and the header holds exactly those |
| CommandConsole.DataHeaderAt | pyaffy/old_api/cel/cel.py:269-294 | a data header and all its parents, at any depth, are read with distinct parameter names and the counter kept in step |
| CommandConsole.HeadersAt | pyaffy/old_api/cel/cel.py:284-291 | exactly `num_parents` parent headers are read, each of them well formed |
| CommandConsole.HeadersStep | pyaffy/old_api/cel/cel.py:288-291 | one more iteration appends the next header, in file order |
| CommandConsole.HeadersErr | pyaffy/old_api/cel/cel.py:288-291 | a failure at one parent is the failure of the whole loop |
| CommandConsole.ColumnAt | pyaffy/old_api/cel/cel.py:296-300 | a column's type code is a signed byte |
| CommandConsole.ColumnLayout | pyaffy/old_api/cel/cel.py:296-300 | a column is its name, then the big-endian int8 type code and int32 size in the 5 bytes after the name |
| CommandConsole.ColumnsAt | pyaffy/old_api/cel/cel.py:320-324 | exactly `n_cols` columns are read, each with a signed-byte type code |
| CommandConsole.ColumnTableAt | pyaffy/old_api/cel/cel.py:320-324 | the count and the column loop keep the counter in step and read at least the 4-byte count |
| CommandConsole.ColumnTableLayout | pyaffy/old_api/cel/cel.py:320-324 | the column table is the uint32 count at the position followed by that many columns |
| CommandConsole.ColumnsErr | pyaffy/old_api/cel/cel.py:323-324 | a failure at one column is the failure of the whole loop |
| CommandConsole.ColumnKindOf | pyaffy/old_api/cel/cel.py:304-305 | `VALUE_TYPES[code]` exists exactly when -9 ≤ code < 9 (a negative code counts from the end) |
| CommandConsole.ValueAt | pyaffy/old_api/cel/cel.py:332 | a value is read as its column's type says, and so fits that type and its range |
| CommandConsole.ValueTypeError | pyaffy/old_api/cel/cel.py:332 | reading a value fails with a bad type code exactly when the code is outside `VALUE_TYPES` |
| CommandConsole.RowFrom | pyaffy/old_api/cel/cel.py:330-333 | the inner loop completes a row of values that fit their columns |
| CommandConsole.RowAt | pyaffy/old_api/cel/cel.py:330-333 | a row holds one fitting value per column |
| CommandConsole.RowsAt | pyaffy/old_api/cel/cel.py:326-333 | exactly `n_rows` rows are read, each with one fitting value per column |
| CommandConsole.RowsErr | pyaffy/old_api/cel/cel.py:329-333 | a failure at one row is the failure of the whole loop |
| CommandConsole.DataSetHeadAt | pyaffy/old_api/cel/cel.py:307-326 | the row count and the next position are unsigned 32-bit; parameter names are distinct |
| CommandConsole.DataSetHeadLayout | pyaffy/old_api/cel/cel.py:307-326 | a data set starts with `data_pos` and `next_pos`, the uint32 at bytes 0 and 4, then its name at byte 8, its parameter table and its column table; `n_rows` is the uint32 right after the columns |
| CommandConsole.ColumnNames | pyaffy/old_api/cel/cel.py:325 | name j is column j's name |
| CommandConsole.DataSetAt | pyaffy/old_api/cel/cel.py:302-335 | a data set has `n_rows` rows, one column name per declared column, rows that fit the column types, and returns the declared next position |
| CommandConsole.AlignAt | pyaffy/old_api/cel/cel.py:352-356 | after a data set the counter must equal `next_pos`, or be one short with one more byte present that is then skipped; the counter ends at `next_pos` |
| CommandConsole.Expect | pyaffy/old_api/cel/cel.py:346 | an offset check passes exactly when the counter equals the declared offset |
| CommandConsole.DataSetsAt | pyaffy/old_api/cel/cel.py:347-357 | exactly `n_datasets` data sets are read |
| CommandConsole.DataSetsErr | pyaffy/old_api/cel/cel.py:348-357 | a failure at one data set is the failure of the whole loop |
| CommandConsole.DataSetsAligned | pyaffy/old_api/cel/cel.py:352-356 | after each data set the counter is at the position that data set declared |
| CommandConsole.GroupHeadAt | pyaffy/old_api/cel/cel.py:338-341 | the group head keeps the counter in step |
| CommandConsole.GroupHeadLayout | pyaffy/old_api/cel/cel.py:337-341 | a group starts with `next_pos` and `dataset_pos`, the uint32 at bytes 0 and 4, then `n_datasets`, the int32 at byte 8, then its name at byte 12 |
| CommandConsole.DataGroupAt | pyaffy/old_api/cel/cel.py:337-359 | a data group keeps the counter in step |
| CommandConsole.DataGroupLayout | pyaffy/old_api/cel/cel.py:337-359 | a group read without error had the counter at `dataset_pos` after its head, and holds `n_datasets` data sets |
| CommandConsole.GroupsAt | pyaffy/old_api/cel/cel.py:369-371 | exactly `num_data_groups` groups are read |
| CommandConsole.GroupsErr | pyaffy/old_api/cel/cel.py:370-371 | a failure at one group is the failure of the whole loop |
| CommandConsole.FileHeaderAt | pyaffy/old_api/cel/cel.py:231-241 | the file header occupies exactly 10 bytes |
| CommandConsole.FileHeaderAccepts | pyaffy/old_api/cel/cel.py:231-241 | the file header is accepted exactly when byte 0 is 59, byte 1 is 1 and 10 bytes are there; a wrong byte 0 is reported as a bad magic number |
| CommandConsole.CelAt | pyaffy/old_api/cel/cel.py:361-372 | decoding a whole file keeps the counter in step with the position |
| CommandConsole.CelLayout | pyaffy/old_api/cel/cel.py:361-372 | a file read without error starts with 59 and 1, had the counter at the declared first-group offset after the data header, and holds the declared number of groups |
| CommandConsole.DataSetByName | pyaffy/old_api/cel/cel.py:126-130 | succeeds exactly when some data set's name starts with the prefix, and returns the first such data set |
| CommandConsole.DataGroupByName | pyaffy/old_api/cel/cel.py:137-141 | succeeds exactly when some group has that name, and returns the first such group |
| CommandConsole.GetDataSetByName | pyaffy/old_api/cel/cel.py:126-130 | the loop returns what `DataSetByName` specifies |
| CommandConsole.GetDataGroupByName | pyaffy/old_api/cel/cel.py:137-141 | the loop returns what `DataGroupByName` specifies |
| CommandConsole.ReadWString | pyaffy/old_api/cel/cel.py:201-205 | returns and moves the stream as `WStringAt` says |
| CommandConsole.ReadParam | pyaffy/old_api/cel/cel.py:243-267 | returns and moves the stream as `ParamAt` says |
| CommandConsole.ReadParams | pyaffy/old_api/cel/cel.py:278-282 | the parameter loop returns and moves the stream as `ParamsAt` says |
| CommandConsole.ReadParamTable | pyaffy/old_api/cel/cel.py:278-282 | the count and the parameter loop return and move the stream as `ParamTableAt` says |
| CommandConsole.ReadHeaderFields | pyaffy/old_api/cel/cel.py:269-282 | returns and moves the stream as `HeaderFieldsAt` says |
| CommandConsole.ReadDataHeader | pyaffy/old_api/cel/cel.py:269-294 | the recursive reader returns and moves the stream as `DataHeaderAt` says |
| CommandConsole.ReadParents | pyaffy/old_api/cel/cel.py:284-291 | the parent loop returns and moves the stream as `HeadersAt` says |
| CommandConsole.ReadColumn | pyaffy/old_api/cel/cel.py:296-300 | returns and moves the stream as `ColumnAt` says |
| CommandConsole.ReadColumns | pyaffy/old_api/cel/cel.py:320-324 | the column loop returns and moves the stream as `ColumnsAt` says |
| CommandConsole.ReadColumnTable | pyaffy/old_api/cel/cel.py:320-324 | the count and the column loop return and move the stream as `ColumnTableAt` says |
| CommandConsole.ReadValue | pyaffy/old_api/cel/cel.py:332 | returns and moves the stream as `ValueAt` says |
| CommandConsole.ReadRow | pyaffy/old_api/cel/cel.py:330-333 | the inner loop returns and moves the stream as `RowAt` says |
| CommandConsole.ReadRows | pyaffy/old_api/cel/cel.py:328-333 | the row loop returns and moves the stream as `RowsAt` says |
| CommandConsole.ReadDataSet | pyaffy/old_api/cel/cel.py:302-335 | returns and moves the stream as `DataSetAt` says |
| CommandConsole.Align | pyaffy/old_api/cel/cel.py:352-356 | the alignment check returns and moves the stream as `AlignAt` says |
| CommandConsole.ReadGroupHead | pyaffy/old_api/cel/cel.py:338-341 | returns and moves the stream as `GroupHeadAt` says |
| CommandConsole.ReadDataSets | pyaffy/old_api/cel/cel.py:347-357 | the data set loop returns and moves the stream as `DataSetsAt` says |
| CommandConsole.ReadDataGroup | pyaffy/old_api/cel/cel.py:337-359 | returns and moves the stream as `DataGroupAt` says |
| CommandConsole.ReadGroups | pyaffy/old_api/cel/cel.py:369-371 | the group loop returns and moves the stream as `GroupsAt` says |
| CommandConsole.ReadFileHeader | pyaffy/old_api/cel/cel.py:231-241 | returns and moves the stream as `FileHeaderAt` says |
| CommandConsole.ReadCel | pyaffy/old_api/cel/cel.py:361-372 | decoding a file's bytes returns what `CelAt` specifies |
| CelParser.TagValRetry | pyaffy/old_api/cel/parser.py:107-116 | the `=` parse decides unless it raises a ParsingError; only then is the text parsed again with `:`, with each `;` turned into a line break |
| CelParser.TagValAt | pyaffy/old_api/cel/parser.py:103-116 | a tag/value block reads at least its length and keeps the counter in step |
| CelParser.LeUnsignedSlice | pyaffy/old_api/cel/parser.py:63-79 | the two- and four-byte little-endian formulas are the unsigned little-endian reading |
| CelParser.LeIntAt | pyaffy/old_api/cel/parser.py:85-95 | `read_short`/`read_integer`/`read_DWORD` give the little-endian value at the position |
| CelParser.LeFloatAt | pyaffy/old_api/cel/parser.py:81-83 | `read_float` gives the little-endian float at the position |
| CelParser.SignatureAt | pyaffy/old_api/cel/parser.py:150-153 | the signature occupies 8 bytes |
| CelParser.LeIntIs | pyaffy/old_api/cel/parser.py:150-153 | a little-endian int32 equals v exactly when its bytes are v's encoding |
| CelParser.SignatureBytes | pyaffy/old_api/cel/parser.py:150-153 | 64 and 4 are encoded as [64,0,0,0] and [4,0,0,0] |
| CelParser.V4Signature | pyaffy/old_api/cel/parser.py:150-153 | the magic and version checks pass exactly when the first 8 bytes are 64,0,0,0,4,0,0,0 |
| CelParser.V4HeaderDims | pyaffy/old_api/cel/parser.py:154-156 | the header starts with the little-endian int32 column, row and cell counts, in that order |
| CelParser.V4HeaderCounts | pyaffy/old_api/cel/parser.py:165-168 | the last 16 header bytes are the margin (int32), the outlier count (uint32), the masked count (uint32) and the sub-grid count (int32), in that order |
| CelParser.BlockAt | pyaffy/old_api/cel/parser.py:174-190 | record k of a block of fixed-width records is read at offset width·k |
| CelParser.Block | pyaffy/old_api/cel/parser.py:174-190 | a block of n records holds n of them |
| CelParser.BlockAppend | pyaffy/old_api/cel/parser.py:174-190 | a block of a records followed by a block of b records is a block of a+b records |
| CelParser.RecordsFrom | pyaffy/old_api/cel/parser.py:180-190 | a record loop succeeds exactly when all its bytes are there, moves both cursors by width·n and appends the block's records in file order |
| CelParser.RecordsStep | pyaffy/old_api/cel/parser.py:180-190 | one iteration reads the next record or fails with `Truncated` |
| CelParser.ColumnsFlat | pyaffy/old_api/cel/parser.py:174-177 | `num_cols` columns of `num_rows` cells are one block of rows·cols ten-byte records |
| CelParser.CellsFrom | pyaffy/old_api/cel/parser.py:174-177 | the nested cell loop succeeds exactly when 10·rows·cols bytes are there, and moves both cursors by that much |
| CelParser.CellsFromBlock | pyaffy/old_api/cel/parser.py:174-177 | the nested loop's cells are the cells stored column after column |
| CelParser.V4HeaderAt | pyaffy/old_api/cel/parser.py:154-168 | the header keeps the counter in step |
| CelParser.BlocksAt | pyaffy/old_api/cel/parser.py:174-190 | the body succeeds exactly when cells, masked, outlier and sub-grid records fit, taking 10·rows·cols + 4·masked + 4·outliers + 56·subgrids bytes |
| CelParser.MaskedAt | pyaffy/old_api/cel/parser.py:180-190 | the masked list, read first, holds `num_masked_cells` entries; the cells are unchanged |
| CelParser.OutliersAt | pyaffy/old_api/cel/parser.py:184-190 | the outliers, read after the masked list, and then the sub-grids are as many as declared; cells and masked list are unchanged |
| CelParser.V4At | pyaffy/old_api/cel/parser.py:147-192 | a decoded file passed the signature check and its body is what follows its header |
| CelParser.Intensities | pyaffy/old_api/cel/parser.py:192 | intensity k is the first field of cell k |
| CelParser.V4BodyIntensities | pyaffy/old_api/cel/parser.py:174-192 | there are rows·cols intensities, and intensity k is the little-endian float at byte 10k of the cell block |
| CelParser.FirstColumn | pyaffy/old_api/cel/parser.py:216 | column 0 of the rows has one value per row |
| CelParser.FirstColumnOfRows | pyaffy/old_api/cel/parser.py:216 | `np.float64(ds.data)[:, 0]` succeeds exactly when there is a row, a column and every column is numeric; value i is row i's first value |
| CelParser.V4Numbers | pyaffy/old_api/cel/parser.py:218 | the version-4 branch returns the intensities of the cells, each widened exactly |
| CelParser.V4FirstByte | pyaffy/old_api/cel/parser.py:201-207 | every file the version-4 decoder accepts starts with byte 64, so the dispatch sends it there |
| CelParser.DispatchV4 | pyaffy/old_api/cel/parser.py:195-220 | `parse_intensities` on a decodable version-4 file is the version-4 result |
| CelParser.DispatchCcg | pyaffy/old_api/cel/parser.py:195-220 | `parse_intensities` on a decodable generic file is the `Intensity` data set's first column |
| CelParser.ReadTagVal | pyaffy/old_api/cel/parser.py:103-116 | returns and moves the stream as `TagValAt` says |
| CelParser.ReadSignature | pyaffy/old_api/cel/parser.py:150-153 | returns and moves the stream as `SignatureAt` says |
| CelParser.ReadDimensions | pyaffy/old_api/cel/parser.py:154-156 | reads columns, rows and cells as `DimensionsAt` says |
| CelParser.ReadCounts | pyaffy/old_api/cel/parser.py:165-168 | reads the margin and the three counts as `CountsAt` says |
| CelParser.ReadV4Header | pyaffy/old_api/cel/parser.py:154-168 | returns and moves the stream as `V4HeaderAt` says |
| CelParser.ReadCell | pyaffy/old_api/cel/parser.py:118-122 | `read_cell` reads float, float, int16: the 10-byte record `CellOf` |
| CelParser.ReadCoords | pyaffy/old_api/cel/parser.py:124-127 | `read_coords` reads two int16s: the 4-byte record `CoordsOf` |
| CelParser.ReadPoint | pyaffy/old_api/cel/parser.py:132-139 | one corner is two floats: the 8-byte record `PointOf` |
| CelParser.ReadCorners | pyaffy/old_api/cel/parser.py:132-139 | the four corners, in the order read: the 32-byte record `CornersOf` |
| CelParser.ReadBounds | pyaffy/old_api/cel/parser.py:140-143 | left, top, right, bottom: the 16-byte record `BoundsOf` |
| CelParser.ReadSubgrid | pyaffy/old_api/cel/parser.py:129-145 | `read_subgrid` is 2 int32 + 8 float + 4 int32: the 56-byte record `SubgridOf` |
| CelParser.ReadColumnCells | pyaffy/old_api/cel/parser.py:176-177 | the inner cell loop returns and moves the stream as `RecordsFrom` says |
| CelParser.ReadCells | pyaffy/old_api/cel/parser.py:174-177 | the nested cell loop returns and moves the stream as `CellsFrom` says |
| CelParser.ReadCoordsList | pyaffy/old_api/cel/parser.py:180-186 | a coordinate loop returns and moves the stream as `RecordsFrom` says for 4-byte records |
| CelParser.ReadSubgrids | pyaffy/old_api/cel/parser.py:188-190 | the sub-grid loop returns and moves the stream as `RecordsFrom` says for 56-byte records |
| CelParser.ReadV4Body | pyaffy/old_api/cel/parser.py:174-190 | returns and moves the stream as `V4BodyAt` says |
| CelParser.ParseV4Intensities | pyaffy/old_api/cel/parser.py:147-192 | returns the intensities of the file as `V4Intensities` specifies |
| CelParser.ParseCcgIntensities | pyaffy/old_api/cel/parser.py:213-216 | returns the `Intensity` data set's first column of group 0 as `CcgIntensities` specifies |
| CelParser.ParseIntensities | pyaffy/old_api/cel/parser.py:195-220 | empty file, byte 59, byte 64 or any other first byte are dispatched as `IntensitiesOf` specifies |
| CdfExpression.ParseInt | pyaffy/old_api/cdf/expression.py:129 | `int()` on text scans whitespace, an optional sign, whitespace, digits, an optional `L` and whitespace to the end; a failure reports the text it could not read |
| CdfExpression.DigitRun | pyaffy/old_api/cdf/expression.py:129 | the digit run at the start of a text is all digits and is followed by a non-digit or the end |
| CdfExpression.ParseIntNumeral | pyaffy/old_api/cdf/expression.py:129 | `int()` succeeds exactly when the text without surrounding Unicode whitespace is a numeral (a sign, whitespace, at least one digit, an optional `L` or `l`); the value is the digits' decimal value, negated after `-` |
| CdfExpression.UnsignedStrip | pyaffy/old_api/cdf/expression.py:129 | skipping the sign and its whitespace commutes with dropping trailing whitespace |
| CdfExpression.DigitsThenBlank | pyaffy/old_api/cdf/expression.py:129 | when the scan after the sign accepts, the digits it read are the numeral without trailing whitespace and without `L` |
| CdfExpression.BlankAfterDigits | pyaffy/old_api/cdf/expression.py:129 | when the text after the sign is digits, an optional `L` and whitespace, the scan accepts |
| CdfExpression.ParseIntSpaceAfterSign | pyaffy/old_api/cdf/expression.py:129 | `int(u' - 5') == -5`: whitespace after the sign is skipped |
| CdfExpression.ParseIntSeparator | pyaffy/old_api/cdf/expression.py:129 | `int(u'\x1c5') == 5`: U+001C is whitespace to `long()` |
| CdfExpression.ParseIntSuffix | pyaffy/old_api/cdf/expression.py:129 | `int(u'12L') == 12` |
| CdfExpression.ParseStripped | pyaffy/old_api/cdf/expression.py:129 | a numeral without surrounding whitespace reads as its digits' value, negated after `-` |
| CdfExpression.PlainDigits | pyaffy/old_api/cdf/expression.py:129 | a run of digits is its own stripped numeral |
| CdfExpression.PlainNegative | pyaffy/old_api/cdf/expression.py:129 | a minus sign and digits are their own stripped numeral, with the digits after the sign |
| CdfExpression.ShowShape | pyaffy/old_api/cdf/expression.py:129 | `str(n)` is digits worth `n`, or a minus sign and digits worth `-n` |
| CdfExpression.DigitsOf | pyaffy/old_api/cdf/expression.py:129 | a number's decimal numeral is a non-empty string of digits |
| CdfExpression.Show | pyaffy/old_api/cdf/expression.py:129 | `str(n)` is non-empty |
| CdfExpression.ParseIntShow | pyaffy/old_api/cdf/expression.py:129 | `int(str(n)) == n` for every integer |
| CdfExpression.DigitsOfValue | pyaffy/old_api/cdf/expression.py:129 | digits without a leading zero are `str` of their value |
| CdfExpression.ShowParseInt | pyaffy/old_api/cdf/expression.py:129 | `str(int(t)) == t` for every numeral `str` could have written |
| CdfExpression.ShowParseDigits | pyaffy/old_api/cdf/expression.py:129 | canonical digits read as their value, and `str` of that value gives them back |
| CdfExpression.ShowParseNegative | pyaffy/old_api/cdf/expression.py:129 | a canonical negative numeral reads as minus its digits' value, and `str` of that value gives it back |
| CdfExpression.ShowNegative | pyaffy/old_api/cdf/expression.py:129 | `str` writes minus a canonical numeral's digit value as that numeral with its sign |
| CdfExpression.KeyIndex | pyaffy/old_api/cdf/expression.py:179-181 | the skip loop stops at the first `CellHeader`, or at the end when there is none |
| CdfExpression.Get | pyaffy/old_api/cdf/expression.py:128 | `sec[key]` succeeds exactly when the key is present, returns one of its values, and fails with `MissingKey` |
| CdfExpression.SectionNamed | pyaffy/old_api/cdf/expression.py:128 | `C['Chip']` succeeds exactly when a section has that name |
| CdfExpression.Field | pyaffy/old_api/cdf/expression.py:152-153 | `val[i]` succeeds exactly when i is within the line's fields |
| CdfExpression.IndexOf | pyaffy/old_api/cdf/expression.py:174 | `k.index('_')` is the first occurrence |
| CdfExpression.Slice | pyaffy/old_api/cdf/expression.py:141 | Python slicing: the substring when in range, else empty |
| CdfExpression.Pairwise | pyaffy/old_api/cdf/expression.py:18-21 | `pairwise` yields ⌊n/2⌋ pairs |
| CdfExpression.PairwiseAt | pyaffy/old_api/cdf/expression.py:18-21 | pair k is (s[2k], s[2k+1]): consecutive and non-overlapping |
| CdfExpression.MapFrom | pyaffy/old_api/cdf/expression.py:182-225 | a decoding loop succeeds exactly when every element decodes, and then its results are the element decodings in order; a failure is the failure of some element |
| CdfExpression.Filter | pyaffy/old_api/cdf/expression.py:145-148 | the kept lines all pass the test, and no more lines are kept than given |
| CdfExpression.FilterStep | pyaffy/old_api/cdf/expression.py:145-148 | filtering keeps the order of the lines |
| CdfExpression.MapFromTail | pyaffy/old_api/cdf/expression.py:145-154 | decoding from position j+1 of x::rest is decoding from j of rest |
| CdfExpression.FilterMapFrom | pyaffy/old_api/cdf/expression.py:145-154 | the QC cell loop is decoding the kept lines in order |
| CdfExpression.LinearIndexCoords | pyaffy/old_api/cdf/expression.py:214-221 | for 0 ≤ x < num_rows, `y*num_rows + x` gives y back by division and x by remainder |
| CdfExpression.LinearIndexInjective | pyaffy/old_api/cdf/expression.py:214-221 | two probes with 0 ≤ x < num_rows share an index exactly when they share coordinates |
| CdfExpression.Classify | pyaffy/old_api/cdf/expression.py:190-212 | a pair is accepted exactly when both lines have fields 8 and 9 and exactly one is MM (fields 8 and 9 equal); PM comes first; the missing field or the rejected pair is reported in source order |
| CdfExpression.ProbeAt | pyaffy/old_api/cdf/expression.py:214-221 | a probe succeeds exactly when fields 0 and 1 are integers, and its index is `y*num_rows + x` |
| CdfExpression.PairOf | pyaffy/old_api/cdf/expression.py:190-225 | a pair is accepted exactly when the two lines, in either order, are a PM line with fields 0, 1 and 11 and an MM line with fields 0 and 1, all integers, and field 11 equals `y*num_rows + x` of the PM line; an accepted pair is indexed by `y*num_rows + x`; two lines of the same kind are rejected |
| CdfExpression.BlockIdText | pyaffy/old_api/cdf/expression.py:174 | the id text is what lies between `Unit` and the first `_` |
| CdfExpression.PairsDecoded | pyaffy/old_api/cdf/expression.py:182-225 | the pairing loop succeeds exactly when lines 2k and 2k+1 make a pair for every k, and then pair k is theirs |
| CdfExpression.WithPairs | pyaffy/old_api/cdf/expression.py:229-236 | a probe set is accepted exactly when the pairs were read and their count is `NumAtoms` |
| CdfExpression.BlockSetWith | pyaffy/old_api/cdf/expression.py:171-236 | given the lines to pair, a block is accepted exactly when its id parses, it has a `Name`, every pair decodes and `NumAtoms` counts the pairs; the result carries them |
| CdfExpression.BlockSetAsWritten | pyaffy/old_api/cdf/expression.py:178-183 | as written, the pairs are taken from the section's first line on |
| CdfExpression.AsWrittenRejectsBlocks | pyaffy/old_api/cdf/expression.py:178-191 | as written, a block whose first line has no tab (such as `Name=...`) is rejected with a missing field 8 |
| CdfExpression.AsWrittenRejectsCdf | pyaffy/old_api/cdf/expression.py:138-241 | as written, `read_cdf` fails on every file with such a block section |
| CdfExpression.BlockSetOf | pyaffy/old_api/cdf/expression.py:171-236 | corrected `read_cdf`: a block is accepted exactly when its id parses, it has a `Name`, every pair of cell lines after `CellHeader` decodes and `NumAtoms` counts those pairs; pair k is from cell lines 2k and 2k+1 |
| CdfExpression.SplitWithoutSeparator | pyaffy/old_api/cdf/expression.py:190 | a line without a tab splits into itself alone |
| CdfExpression.QcProbeOf | pyaffy/old_api/cdf/expression.py:150-154 | a QC cell line is accepted exactly when fields 0, 1 and 5 are integers, and gives coordinates (f0, f1) and index f5 |
| CdfExpression.QcSetOf | pyaffy/old_api/cdf/expression.py:139-161 | a QC section is accepted exactly when `k[2:]`, `Type` and every kept cell line parse and `NumberCells` counts the kept lines; probe k comes from kept line k |
| CdfExpression.UnitCheck | pyaffy/old_api/cdf/expression.py:165-169 | a `Unit<N>` section is accepted exactly when `UnitNumber` parses, `UnitType` is 3 and `NumberBlocks` is 1 |
| CdfExpression.CollectedQcStep | pyaffy/old_api/cdf/expression.py:138-161 | one more section keeps the QC list equal to the decodings of the QC sections so far, in order |
| CdfExpression.CollectedBlocksStep | pyaffy/old_api/cdf/expression.py:163-236 | one more section keeps the expression list equal to the decodings of the block sections so far, in order |
| CdfExpression.SectionsCollected | pyaffy/old_api/cdf/expression.py:138-236 | after the section loop, the two lists are the decodings of the QC and block sections, in section order |
| CdfExpression.SectionOkAnyTally | pyaffy/old_api/cdf/expression.py:138-236 | whether a section is accepted does not depend on the sections before it |
| CdfExpression.SectionsAccepted | pyaffy/old_api/cdf/expression.py:138-236 | the section loop succeeds exactly when every section is accepted on its own |
| CdfExpression.ChipOf | pyaffy/old_api/cdf/expression.py:127-132 | the header is read exactly when `[Chip]` has `Name` and integer `Rows`, `Cols`, `NumberOfUnits` and `NumQCUnits`, and carries those values |
| CdfExpression.Checked | pyaffy/old_api/cdf/expression.py:238-241 | the result is built exactly when the QC count is `NumQCUnits` and the expression count `NumberOfUnits` |
| CdfExpression.CdfContents | pyaffy/old_api/cdf/expression.py:127-241 | corrected `read_cdf`: a CDF read without error has the `[Chip]` name and grid, `NumQCUnits` QC sets decoded from the QC sections in order, and `NumberOfUnits` expression sets decoded from the block sections in order |
| CdfExpression.CdfAccepts | pyaffy/old_api/cdf/expression.py:127-241 | corrected `read_cdf`: a CDF is read exactly when the header parses, every section is accepted, and the numbers of QC and block sections are the declared counts |
| CdfExpression.AfterChipAccepts | pyaffy/old_api/cdf/expression.py:134-241 | corrected `read_cdf`: after the header, the CDF is read exactly when every section is accepted and the numbers of QC and block sections are the declared counts |
| CdfExpression.ReadQcProbes | pyaffy/old_api/cdf/expression.py:144-154 | the QC cell loop returns what `FilterMapFrom` specifies |
| CdfExpression.ReadQcSet | pyaffy/old_api/cdf/expression.py:139-161 | the QC branch returns what `QcSetOf` specifies |
| CdfExpression.ReadBlockSet | pyaffy/old_api/cdf/expression.py:171-236 | corrected `read_cdf`: the block branch returns what `BlockSetOf` specifies |
| CdfExpression.ReadBlockWith | pyaffy/old_api/cdf/expression.py:171-236 | the block branch's header values and pairing loop over given cell lines return what `BlockSetWith` specifies |
| CdfExpression.SkipToCells | pyaffy/old_api/cdf/expression.py:179-181 | the skip loop stops at the index `KeyIndex` gives for `CellHeader` |
| CdfExpression.ReadPairs | pyaffy/old_api/cdf/expression.py:182-225 | the pairing loop returns what `MapFrom` specifies over `Pairwise` |
| CdfExpression.AddQcSet | pyaffy/old_api/cdf/expression.py:139-161 | a QC section updates the tally as `SectionStep` says |
| CdfExpression.CheckUnit | pyaffy/old_api/cdf/expression.py:165-169 | a `Unit<N>` section updates the tally as `SectionStep` says |
| CdfExpression.AddBlockSet | pyaffy/old_api/cdf/expression.py:171-236 | corrected `read_cdf`: a block section updates the tally as `SectionStep` says |
| CdfExpression.ReadSection | pyaffy/old_api/cdf/expression.py:138-236 | corrected `read_cdf`: one iteration of the section loop is `SectionStep` |
| CdfExpression.ReadCdf | pyaffy/old_api/cdf/expression.py:111-241 | corrected `read_cdf` on tokenised sections returns what `CdfOf` specifies |
| CdfExpression.ReadAfterChip | pyaffy/old_api/cdf/expression.py:134-241 | corrected `read_cdf`: the section loop and the count checks return what `CdfAfterChip` specifies |

## Left out

- File opening, `misc.smart_open_read` and gzip: the decoders take the bytes of the file, already decompressed.
- The CDF's `ConfigParser` tokenising: the input is a sequence of named sections of `(key, value)` lines in file order. Duplicate keys, the DEFAULT section and continuation lines are not modelled.
- The version-4 tag/value blocks: the `ConfigParser` is a function parameter `ini`. Only the order of its two attempts and what is done with its verdicts are modelled.
- Floats: a float is its 32-bit pattern. IEEE arithmetic and numpy's widening to float64 are not modelled; the widening is taken to be exact.
- `read_datetime`: `dateutil` parsing is not modelled, and the creation time is kept as the text read.
- Logging, `__repr__`, `params_hash` and `data_hash`.
- CommandConsole.CelAt: its contract states only the counter bookkeeping. The offset checks and counts are stated by `CommandConsole.CelLayout`.
- CommandConsole.ParamAt: its contract states only the counter bookkeeping. Which read gives the name, the value and the tag is stated by `CommandConsole.ParamLayout`.
- CommandConsole.HeaderFieldsAt: its contract states only the counter bookkeeping and distinct names. The fields are stated by `CommandConsole.HeaderFieldsLayout`.
- CommandConsole.ColumnAt: its contract states only the type code's range and the counter bookkeeping. The fields are stated by `CommandConsole.ColumnLayout`.
- CommandConsole.DataSetHeadAt: its contract states only ranges and distinct names. The fields are stated by `CommandConsole.DataSetHeadLayout`.
- CommandConsole.GroupHeadAt: its contract states only the counter bookkeeping. The fields are stated by `CommandConsole.GroupHeadLayout`.
- CommandConsole.DataGroupAt: its contract states only the counter bookkeeping. The `dataset_pos` check and the data set count are stated by `CommandConsole.DataGroupLayout`.
- CelParser.FirstColumn: numpy's conversion of text or byte values to float64 is not modelled. A value that is not an integer or a float makes the conversion fail.
- CdfExpression.ParseInt: its contract states only the error payload. When `int()` succeeds, and its value, are stated by `CdfExpression.ParseIntNumeral`.
- CdfExpression.ParseIntNumeral: `long()` on text first maps every Unicode decimal digit (category Nd, such as U+0660) to its ASCII digit; the model reads only ASCII digits and rejects the others. Whitespace is the set Python 2's `unicode.isspace` accepts.
- CommandConsole.DataHeaderAt: parent headers are read at any nesting depth. The recursive `read_data_header` stops with a `RuntimeError` at Python's recursion limit (about 1000 levels); that limit is not modelled.
- The debugging `print id_, ...` statements before the count assertions (`expression.py` lines 159 and 232). The module imports `print_function`, so as written these lines are syntax errors and the module does not compile under any Python version. The model reads them as the diagnostics they evidently are and leaves them out, which is the only way `read_cdf` has any behaviour to model.
- The version-4 `num_cells` field is read and kept, but never compared with `num_rows * num_cols`. The format documentation makes it that product; the code does not check it, and neither does the model.
- `CELDataSet.num_cols` is the length of the column names (`CommandConsole.NumCols`). It has no contract of its own; `CommandConsole.DataSetAt` states its value.

## Findings

| source | as written | input that shows it | evidently intended | confidence | as-written member | corrected member |
|---|---|---|---|---|---|---|
| pyaffy/old_api/cdf/expression.py:178-183 | `iterator = sec.items()` is a list (a view in Python 3), not an iterator. So the `for` loop that looks for `CellHeader` does not consume it, and `pairwise(iterator)` starts again from the section's first line. | Any `Unit<N>_Block` section whose first line (`Name=...`) has no tab: `val1[8]` raises IndexError, so every block, and with it the whole CDF, is rejected. | Pair only the cell lines after `CellHeader`, two by two. | not executed | CdfExpression.BlockSetAsWritten, CdfExpression.AsWrittenRejectsBlocks, CdfExpression.CdfAsWritten, CdfExpression.AsWrittenRejectsCdf | CdfExpression.BlockSetOf, CdfExpression.CdfOf |
