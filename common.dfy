/** Values shared by the three decoders: bytes, the error taxonomy, a
    failure-compatible result type, and the string helpers that Python's
    str/bytes methods provide to the original code. */
module Common {

  /** One byte of a file, as Python's `ord` sees it. */
  type Byte = x: int | 0 <= x < 256

  /** Every way a decode can abort. The original raises an exception
      (AssertionError, struct.error, IndexError, KeyError, ValueError,
      UnicodeDecodeError); the model returns one of these instead. */
  datatype Error =
    | Truncated                  // struct.unpack on a short read
    | OddWideString              // UTF-16 text with an odd number of bytes
    | BadSurrogate               // UTF-16 text with an unpaired surrogate
    | NotAscii                   // a byte above 127 where ASCII text is decoded
    | BadMagic(found: int)       // magic number differs from the expected one
    | BadVersion(found: int)     // version number differs from the expected one
    | OffsetMismatch(declared: int, counted: int)
    | BadValueType(code: int)    // column type code outside VALUE_TYPES
    | NoDataGroup                // data_groups[0] on a file without groups
    | NoSuchDataSet              // get_data_set_by_name found nothing
    | NoSuchDataGroup            // get_data_group_by_name found nothing
    | NotAMatrix                 // numpy could not take column 0 of the rows
    | TagValueSyntax             // configparser refused a tag/value block
    | EmptyFile                  // ord() of the empty first read
    | UnsupportedFormat(first: int)
    | MissingSection(section: string)
    | MissingKey(key: string)
    | NotAnInteger(text: string)
    | MissingField(index: nat)   // list index out of range on a split line
    | NotOnePmOneMm              // a cell pair is not one PM and one MM cell
    | PmIndexMismatch(computed: int, listed: int)
    | BadUnitType(found: int)
    | BadBlockCount(found: int)
    | CountMismatch(found: int, declared: int)

  datatype Result<+T> = Ok(value: T) | Err(error: Error) {
    predicate IsFailure() { Err? }
    function PropagateFailure<U>(): Result<U>
      requires Err?
    {
      Err(error)
    }
    function Extract(): T
      requires Ok?
    {
      value
    }
  }

  datatype Option<+T> = None | Some(value: T)

  /** Python's `s.startswith(prefix)`. */
  predicate StartsWith<T(==)>(s: seq<T>, prefix: seq<T>) {
    |prefix| <= |s| && s[..|prefix|] == prefix
  }

  /** Python's `s.split(sep)`: the pieces between the separators, in order. */
  function Split(s: string, sep: char): (r: seq<string>)
    ensures |r| >= 1
    ensures forall k :: 0 <= k < |r| ==> sep !in r[k]
    decreases |s|
  {
    if |s| == 0 then [""]
    else
      var rest := Split(s[1..], sep);
      if s[0] == sep then [""] + rest
      else [[s[0]] + rest[0]] + rest[1..]
  }

  /** Python's `sep.join(parts)`. */
  function Join(parts: seq<string>, sep: char): string
  {
    if |parts| == 0 then ""
    else if |parts| == 1 then parts[0]
    else parts[0] + [sep] + Join(parts[1..], sep)
  }

  /** Every occurrence of `a` in `s` replaced by `b`. */
  function Replace(s: string, a: char, b: char): (r: string)
    ensures |r| == |s|
    ensures forall i :: 0 <= i < |s| ==> r[i] == (if s[i] == a then b else s[i])
  {
    seq(|s|, i requires 0 <= i < |s| => if s[i] == a then b else s[i])
  }

  lemma {:induction false} JoinCons(c: char, parts: seq<string>, sep: char)
    requires |parts| >= 1
    ensures Join([[c] + parts[0]] + parts[1..], sep) == [c] + Join(parts, sep)
  {
    var ps := [[c] + parts[0]] + parts[1..];
    if |parts| > 1 {
      assert ps[1..] == parts[1..];
    }
  }

  lemma ReplaceCons(s: string, a: char, b: char)
    requires |s| > 0
    ensures Replace(s, a, b) == [if s[0] == a then b else s[0]] + Replace(s[1..], a, b)
  {
    var r, t := Replace(s, a, b), Replace(s[1..], a, b);
    assert forall i :: 1 <= i < |s| ==> r[i] == t[i - 1];
  }

  /** Splitting on `a` and joining with `b` replaces every `a` by `b`; with
      `b == a` this is the round trip `sep.join(s.split(sep)) == s`. */
  lemma {:induction false} JoinSplit(s: string, a: char, b: char)
    ensures Join(Split(s, a), b) == Replace(s, a, b)
    decreases |s|
  {
    if |s| > 0 {
      var rest := Split(s[1..], a);
      JoinSplit(s[1..], a, b);
      ReplaceCons(s, a, b);
      if s[0] == a {
        assert ([""] + rest)[1..] == rest;
      } else {
        JoinCons(s[0], rest, b);
      }
    }
  }

  /** Python's `codecs.decode(s, 'utf-16-be')`: code units are byte pairs,
      high byte first; a unit outside D800-DFFF is a character of its own,
      a high surrogate (D800-DBFF) followed by a low one (DC00-DFFF) is one
      supplementary character, and anything else is a decoding error. */
  function DecodeUtf16(b: seq<Byte>): (r: Result<string>)
    decreases |b|
  {
    if |b| == 0 then Ok("")
    else if |b| == 1 then Err(OddWideString)
    else
      var unit := (b[0] as int) * 256 + b[1];
      if unit < 0xD800 || 0xE000 <= unit then
        var rest :- DecodeUtf16(b[2..]);
        Ok([unit as char] + rest)
      else if unit < 0xDC00 && |b| >= 4 && 0xDC <= b[2] < 0xE0 then
        var low := (b[2] as int) * 256 + b[3];
        var rest :- DecodeUtf16(b[4..]);
        Ok([(0x10000 + (unit - 0xD800) * 0x400 + (low - 0xDC00)) as char] + rest)
      else Err(BadSurrogate)
  }

  /** A decoding yields at most one character per code unit, and fails
      only for an odd byte count or a surrogate out of place. */
  lemma {:induction false} DecodeUtf16Facts(b: seq<Byte>)
    ensures DecodeUtf16(b).Ok? ==> |DecodeUtf16(b).value| <= |b| / 2
    ensures DecodeUtf16(b).Err? ==> DecodeUtf16(b).error in {OddWideString, BadSurrogate}
    decreases |b|
  {
    if |b| >= 2 {
      DecodeUtf16Facts(b[2..]);
      if |b| >= 4 {
        DecodeUtf16Facts(b[4..]);
      }
    }
  }

  /** The UTF-16-BE bytes of one character. */
  function EncodeChar(c: char): (r: seq<Byte>)
    ensures |r| == 2 || |r| == 4
  {
    var v := c as int;
    if v < 0x10000 then [v / 256, v % 256]
    else
      var w := v - 0x10000;
      var high := 0xD800 + w / 0x400;
      var low := 0xDC00 + w % 0x400;
      [high / 256, high % 256, low / 256, low % 256]
  }

  /** Python's `s.encode('utf-16-be')`. */
  function EncodeUtf16(s: string): (r: seq<Byte>)
    ensures |r| % 2 == 0 && 2 * |s| <= |r| <= 4 * |s|
  {
    if |s| == 0 then [] else EncodeChar(s[0]) + EncodeUtf16(s[1..])
  }

  /** Decoding one encoded character in front of more bytes gives that
      character in front of what those bytes decode to. */
  lemma DecodeEncodeChar(c: char, rest: seq<Byte>)
    ensures DecodeUtf16(EncodeChar(c) + rest) ==
      match DecodeUtf16(rest)
      case Ok(t) => Ok([c] + t)
      case Err(e) => Err(e)
  {
    var b := EncodeChar(c) + rest;
    var v := c as int;
    if v < 0x10000 {
      assert b[2..] == rest;
      assert (b[0] as int) * 256 + b[1] == v;
    } else {
      var w := v - 0x10000;
      var high := 0xD800 + w / 0x400;
      var low := 0xDC00 + w % 0x400;
      assert b[4..] == rest;
      assert (b[0] as int) * 256 + b[1] == high;
      assert (b[2] as int) * 256 + b[3] == low;
      assert 0x10000 + (high - 0xD800) * 0x400 + (low - 0xDC00) == v;
    }
  }

  /** UTF-16 decoding undoes UTF-16 encoding: every string survives the
      round trip through its bytes. */
  lemma {:induction false} DecodeEncodeUtf16(s: string)
    ensures DecodeUtf16(EncodeUtf16(s)) == Ok(s)
    decreases |s|
  {
    if |s| > 0 {
      DecodeEncodeUtf16(s[1..]);
      DecodeEncodeChar(s[0], EncodeUtf16(s[1..]));
      assert [s[0]] + s[1..] == s;
    }
  }

  /** Every byte is below 128: the bytes are ASCII text. */
  predicate Ascii(b: seq<Byte>) {
    forall i :: 0 <= i < |b| ==> b[i] < 128
  }

  /** Bytes that are ASCII decode as UTF-16 exactly when there is an even
      number of them (no code unit can be a surrogate), and character k is
      then the code unit of bytes 2k and 2k+1. */
  lemma {:induction false} DecodeUtf16Ascii(b: seq<Byte>)
    requires Ascii(b)
    ensures DecodeUtf16(b).Ok? <==> |b| % 2 == 0
    ensures DecodeUtf16(b).Err? ==> DecodeUtf16(b).error == OddWideString
    ensures DecodeUtf16(b).Ok? ==>
      var t := DecodeUtf16(b).value;
      |t| == |b| / 2 && forall k :: 0 <= k < |t| ==> t[k] as int == (b[2 * k] as int) * 256 + b[2 * k + 1]
    decreases |b|
  {
    if |b| >= 2 {
      var tail := b[2..];
      assert forall i :: 0 <= i < |tail| ==> tail[i] == b[i + 2];
      DecodeUtf16Ascii(tail);
      if DecodeUtf16(b).Ok? {
        var t := DecodeUtf16(b).value;
        assert t == [((b[0] as int) * 256 + b[1]) as char] + DecodeUtf16(tail).value;
        forall k | 1 <= k < |t|
          ensures t[k] as int == (b[2 * k] as int) * 256 + b[2 * k + 1]
        {
          assert t[k] == DecodeUtf16(tail).value[k - 1];
          assert tail[2 * (k - 1)] == b[2 * k] && tail[2 * (k - 1) + 1] == b[2 * k + 1];
        }
      }
    }
  }

  /** Python's `codecs.decode(s, 'ascii')`. */
  function DecodeAscii(b: seq<Byte>): (r: Result<string>)
    ensures r.Ok? ==> |r.value| == |b|
    ensures r.Err? ==> r.error == NotAscii
  {
    if |b| == 0 then Ok("")
    else if b[0] >= 128 then Err(NotAscii)
    else
      var rest :- DecodeAscii(b[1..]);
      Ok([b[0] as char] + rest)
  }

  /** ASCII decoding succeeds exactly when every byte is below 128, and then
      character i is byte i. */
  lemma {:induction false} DecodeAsciiFacts(b: seq<Byte>)
    ensures DecodeAscii(b).Ok? <==> forall i :: 0 <= i < |b| ==> b[i] < 128
    ensures DecodeAscii(b).Ok? ==> forall i :: 0 <= i < |b| ==> DecodeAscii(b).value[i] as int == b[i]
    decreases |b|
  {
    if |b| > 0 {
      DecodeAsciiFacts(b[1..]);
      assert forall i :: 1 <= i < |b| ==> b[i] == b[1..][i - 1];
    }
  }

  /** Python's `codecs.decode(s, 'iso-8859-1')`: byte k becomes character k. */
  function Latin1(b: seq<Byte>): (r: string)
    ensures |r| == |b|
    ensures forall i :: 0 <= i < |b| ==> r[i] as int == b[i]
  {
    seq(|b|, i requires 0 <= i < |b| => b[i] as char)
  }

  /** `bytes.rstrip('\x00')`: the bytes without their trailing zero bytes. */
  function StripZeros(b: seq<Byte>): (r: seq<Byte>)
    ensures |r| <= |b|
  {
    if |b| == 0 || b[|b| - 1] != 0 then b else StripZeros(b[..|b| - 1])
  }

  /** `raw.rstrip(u'\x00')` on a byte string under Python 2: the bytes are
      first decoded as ASCII to meet the text argument, which fails with
      UnicodeDecodeError on any byte above 127, and only then are the
      trailing zeros removed. */
  function StripZerosAsText(b: seq<Byte>): (r: Result<seq<Byte>>)
    ensures r.Ok? <==> Ascii(b)
    ensures r.Err? ==> r.error == NotAscii
    ensures r.Ok? ==> Ascii(r.value) && |r.value| <= |b|
  {
    if Ascii(b) then
      StripZerosFacts(b);
      Ok(StripZeros(b))
    else Err(NotAscii)
  }

  /** What is stripped is exactly a run of zero bytes at the end: the result
      is a prefix, it does not end in zero, and only zeros follow it. */
  lemma {:induction false} StripZerosFacts(b: seq<Byte>)
    ensures StripZeros(b) == b[..|StripZeros(b)|]
    ensures |StripZeros(b)| > 0 ==> StripZeros(b)[|StripZeros(b)| - 1] != 0
    ensures forall i :: |StripZeros(b)| <= i < |b| ==> b[i] == 0
    decreases |b|
  {
    if |b| > 0 && b[|b| - 1] == 0 {
      var shorter := b[..|b| - 1];
      StripZerosFacts(shorter);
      assert shorter[..|StripZeros(shorter)|] == b[..|StripZeros(shorter)|];
    }
  }
}
