// The GC3.0 CDF interpreter of the old API (`ExpCDF.read_cdf`): the
// sections of an ini-style CDF file, already tokenised into named sections
// of `key=value` lines, become the chip's QC probe sets and expression
// probe sets. Every `assert` of the interpreter and every Python exception
// it can raise becomes an `Err` of the shared `Error` type.

module CdfExpression {
  import opened Common

  // ---------------------------------------------------------------------
  // Records
  // ---------------------------------------------------------------------

  /** A probe: its (x, y) position on the array and its linear index. */
  datatype Probe = Probe(coords: (int, int), index: int)

  /** A perfect-match (PM) probe and its mismatch (MM) partner. */
  datatype ProbePair = ProbePair(pm: Probe, mm: Probe)

  datatype QcProbeSet = QcProbeSet(id: int, qcType: int, probes: seq<Probe>)

  datatype ExpProbeSet = ExpProbeSet(id: int, geneId: string, probePairs: seq<ProbePair>)

  datatype ExpCdf = ExpCdf(name: string, numRows: int, numCols: int,
                           qcProbeSets: seq<QcProbeSet>, expProbeSets: seq<ExpProbeSet>)

  /** A `key=value` line of a section, and a named section, in file order. */
  type Entry = (string, string)
  type Section = (string, seq<Entry>)

  // ---------------------------------------------------------------------
  // Python's int() on decimal text
  // ---------------------------------------------------------------------

  predicate IsDigit(ch: char) { '0' <= ch <= '9' }

  predicate AllDigits(s: string) { forall k :: 0 <= k < |s| ==> IsDigit(s[k]) }

  /** Whitespace in Python 2 text (`unicode.isspace`): the ASCII controls
      9 to 13 and 28 to 31, space, and the Unicode spaces and separators.
      `long()` turns each of them into a space before it reads the number. */
  predicate IsSpace(ch: char) {
    var n := ch as int;
    if n <= 0x20 then 0x09 <= n <= 0x0D || 0x1C <= n
    else if n < 0x85 then false
    else n == 0x85 || n == 0xA0 || n == 0x1680 || n == 0x180E || 0x2000 <= n <= 0x200A
         || n == 0x2028 || n == 0x2029 || n == 0x202F || n == 0x205F || n == 0x3000
  }

  predicate AllSpace(s: string) { forall k :: 0 <= k < |s| ==> IsSpace(s[k]) }

  function TrimStart(s: string): string
  {
    if |s| > 0 && IsSpace(s[0]) then TrimStart(s[1..]) else s
  }

  function TrimEnd(s: string): string
  {
    if |s| > 0 && IsSpace(s[|s| - 1]) then TrimEnd(s[..|s| - 1]) else s
  }

  function Strip(s: string): string { TrimEnd(TrimStart(s)) }

  /** The value of a string of decimal digits, most significant first. */
  function DigitsValue(s: string): nat
    requires AllDigits(s)
  {
    if |s| == 0 then 0
    else 10 * DigitsValue(s[..|s| - 1]) + (s[|s| - 1] as int - '0' as int)
  }

  /** A stripped numeral without its sign and the whitespace after it. */
  function Unsigned(t: string): string
  {
    if |t| > 0 && (t[0] == '-' || t[0] == '+') then TrimStart(t[1..]) else t
  }

  /** The digits of a numeral without its `L` suffix. */
  function Magnitude(u: string): string
  {
    if |u| > 0 && (u[|u| - 1] == 'L' || u[|u| - 1] == 'l') then u[..|u| - 1] else u
  }

  /** A stripped numeral: an optional sign, whitespace, at least one
      decimal digit and an optional `L` or `l`. */
  predicate Numeral(t: string) {
    var m := Magnitude(Unsigned(t));
    |m| > 0 && AllDigits(m)
  }

  /** The number of decimal digits at the start of `s`. */
  function DigitRun(s: string): (n: nat)
    ensures n <= |s| && AllDigits(s[..n]) && (n < |s| ==> !IsDigit(s[n]))
  {
    if |s| == 0 || !IsDigit(s[0]) then 0
    else
      var n := 1 + DigitRun(s[1..]);
      assert s[..n] == [s[0]] + s[1..][..n - 1];
      n
  }

  /** What follows a run of `n` digits once an `L` or `l` right after
      them is skipped. */
  function AfterDigits(u: string, n: nat): string
    requires n <= |u|
  {
    if n < |u| && (u[n] == 'L' || u[n] == 'l') then u[n + 1..] else u[n..]
  }

  /** `int(text)` on Python 2 text, which goes through `long()`: the text
      is scanned from the left for whitespace, an optional sign,
      whitespace, a run of digits, an optional `L` or `l` and whitespace up
      to the end; anything left over is a `ValueError`. */
  function ParseInt(text: string): (r: Result<int>)
    ensures r.Err? ==> r.error == NotAnInteger(text)
  {
    var t := TrimStart(text);
    var u := Unsigned(t);
    var n := DigitRun(u);
    if n > 0 && TrimStart(AfterDigits(u, n)) == [] then
      var magnitude: int := DigitsValue(u[..n]);
      Ok(if |t| > 0 && t[0] == '-' then -magnitude else magnitude)
    else Err(NotAnInteger(text))
  }

  lemma {:induction false} TrimStartHead(s: string)
    ensures |TrimStart(s)| > 0 ==> !IsSpace(TrimStart(s)[0])
    decreases |s|
  {
    if |s| > 0 && IsSpace(s[0]) {
      TrimStartHead(s[1..]);
    }
  }

  /** Trailing whitespace goes, and a non-blank first character stays,
      whatever follows it. */
  lemma {:induction false} TrimEndCons(a: char, y: string)
    ensures TrimEnd([a] + y) == if |TrimEnd(y)| > 0 || !IsSpace(a) then [a] + TrimEnd(y) else []
    decreases |y|
  {
    if |y| > 0 && IsSpace(y[|y| - 1]) {
      assert ([a] + y)[..|y|] == [a] + y[..|y| - 1];
      TrimEndCons(a, y[..|y| - 1]);
    }
  }

  /** Stripping the two ends can be done in either order. */
  lemma {:induction false} TrimCommute(x: string)
    ensures TrimStart(TrimEnd(x)) == TrimEnd(TrimStart(x))
    decreases |x|
  {
    if |x| > 0 {
      assert x == [x[0]] + x[1..];
      TrimEndCons(x[0], x[1..]);
      if IsSpace(x[0]) {
        TrimCommute(x[1..]);
      }
    }
  }

  /** What trailing whitespace removal leaves, and what it removes. */
  lemma {:induction false} TrimEndSplit(u: string)
    ensures |TrimEnd(u)| <= |u| && u == TrimEnd(u) + u[|TrimEnd(u)|..]
    ensures AllSpace(u[|TrimEnd(u)|..])
    decreases |u|
  {
    if |u| > 0 && IsSpace(u[|u| - 1]) {
      var v := u[..|u| - 1];
      TrimEndSplit(v);
      assert u[|TrimEnd(u)|..] == v[|TrimEnd(v)|..] + [u[|u| - 1]];
    }
  }

  /** A text ending in a non-blank character followed by whitespace loses
      exactly the whitespace. */
  lemma {:induction false} TrimEndOf(a: string, b: string)
    requires AllSpace(b) && (|a| == 0 || !IsSpace(a[|a| - 1]))
    ensures TrimEnd(a + b) == a
    decreases |b|
  {
    if |b| > 0 {
      assert (a + b)[..|a + b| - 1] == a + b[..|b| - 1];
      TrimEndOf(a, b[..|b| - 1]);
    } else {
      assert a + b == a;
    }
  }

  /** Leading whitespace removal empties exactly the all-blank texts. */
  lemma {:induction false} TrimStartAllSpace(s: string)
    ensures TrimStart(s) == [] <==> AllSpace(s)
    decreases |s|
  {
    if |s| > 0 && IsSpace(s[0]) {
      TrimStartAllSpace(s[1..]);
      assert AllSpace(s) <==> AllSpace(s[1..]);
    }
  }

  lemma {:induction false} DigitRunOf(a: string, b: string)
    requires AllDigits(a) && (|b| == 0 || !IsDigit(b[0]))
    ensures DigitRun(a + b) == |a|
    decreases |a|
  {
    if |a| > 0 {
      assert (a + b)[1..] == a[1..] + b;
      DigitRunOf(a[1..], b);
    } else {
      assert a + b == b;
    }
  }

  /** Stripping both ends and then the sign leaves what the scan reads
      after the sign, without its trailing whitespace. */
  lemma UnsignedStrip(text: string)
    ensures Unsigned(Strip(text)) == TrimEnd(Unsigned(TrimStart(text)))
    ensures |Strip(text)| > 0 <==> |TrimStart(text)| > 0
    ensures |Strip(text)| > 0 ==> Strip(text)[0] == TrimStart(text)[0]
  {
    var t := TrimStart(text);
    var s := Strip(text);
    if |t| > 0 {
      TrimStartHead(text);
      assert t == [t[0]] + t[1..];
      TrimEndCons(t[0], t[1..]);
      assert s == [t[0]] + TrimEnd(t[1..]);
      if t[0] == '-' || t[0] == '+' {
        assert s[1..] == TrimEnd(t[1..]);
        TrimCommute(t[1..]);
      }
    }
  }

  /** A run of digits, an optional `L` and blanks up to the end: the
      trailing whitespace hides those digits and that `L`. */
  lemma DigitsThenBlank(u: string)
    requires DigitRun(u) > 0 && TrimStart(AfterDigits(u, DigitRun(u))) == []
    ensures Magnitude(TrimEnd(u)) == u[..DigitRun(u)]
  {
    var n := DigitRun(u);
    var k := if n < |u| && (u[n] == 'L' || u[n] == 'l') then n + 1 else n;
    assert AfterDigits(u, n) == u[k..];
    TrimStartAllSpace(u[k..]);
    DigitsThenBlankAt(u, n, k);
  }

  lemma DigitsThenBlankAt(u: string, n: nat, k: nat)
    requires 0 < n <= k <= |u| && AllDigits(u[..n]) && AllSpace(u[k..])
    requires k == n || (k == n + 1 && (u[n] == 'L' || u[n] == 'l'))
    ensures Magnitude(TrimEnd(u)) == u[..n]
  {
    assert u == u[..k] + u[k..];
    assert IsDigit(u[..n][n - 1]);
    TrimEndOf(u[..k], u[k..]);
    if k == n + 1 {
      assert u[..k][..k - 1] == u[..n];
    }
  }

  /** A numeral's digits are followed by at most its `L`. */
  lemma MagnitudeSplit(w: string)
    ensures var m := Magnitude(w);
            w == m + w[|m|..] && (w[|m|..] == [] || w[|m|..] == ['L'] || w[|m|..] == ['l'])
  {
    var m := Magnitude(w);
    if |m| < |w| {
      assert w[|m|..] == [w[|w| - 1]];
    }
  }

  /** The scan of digits, an optional `L` and blanks. */
  lemma ScanOfParts(m: string, suffix: string, e: string)
    requires |m| > 0 && AllDigits(m) && AllSpace(e)
    requires suffix == [] || suffix == ['L'] || suffix == ['l']
    ensures DigitRun(m + suffix + e) == |m|
    ensures TrimStart(AfterDigits(m + suffix + e, |m|)) == []
  {
    var u := m + suffix + e;
    assert u == m + (suffix + e);
    DigitRunOf(m, suffix + e);
    assert u[|m|..] == suffix + e;
    if suffix == [] {
      assert AfterDigits(u, |m|) == e;
    } else {
      assert u[|m| + 1..] == e;
    }
    TrimStartAllSpace(e);
  }

  /** Conversely, a text whose trailing whitespace hides digits and an
      optional `L` is a run of digits, that `L` and blanks up to the end. */
  lemma BlankAfterDigits(u: string)
    requires |Magnitude(TrimEnd(u))| > 0 && AllDigits(Magnitude(TrimEnd(u)))
    ensures DigitRun(u) > 0 && TrimStart(AfterDigits(u, DigitRun(u))) == []
  {
    var w := TrimEnd(u);
    var m := Magnitude(w);
    TrimEndSplit(u);
    MagnitudeSplit(w);
    var e := u[|w|..];
    var suffix := w[|m|..];
    assert u == m + suffix + e;
    ScanOfParts(m, suffix, e);
  }

  /** `long()` on text succeeds exactly on a numeral surrounded by
      whitespace, and its value is the digits' decimal value, negated after
      a minus sign: the left-to-right scan agrees with the description over
      the stripped text. */
  lemma ParseIntNumeral(text: string)
    ensures ParseInt(text).Ok? <==> Numeral(Strip(text))
    ensures ParseInt(text).Ok? ==>
      var t := Strip(text);
      var m := Magnitude(Unsigned(t));
      |t| > 0 && ParseInt(text).value == if t[0] == '-' then -(DigitsValue(m) as int) else DigitsValue(m)
  {
    UnsignedStrip(text);
    var u := Unsigned(TrimStart(text));
    if DigitRun(u) > 0 && TrimStart(AfterDigits(u, DigitRun(u))) == [] {
      DigitsThenBlank(u);
    }
    if |Magnitude(TrimEnd(u))| > 0 && AllDigits(Magnitude(TrimEnd(u))) {
      BlankAfterDigits(u);
    }
  }

  /** `long()` skips whitespace after the sign, which `str.strip()` would
      leave in place. */
  lemma ParseIntSpaceAfterSign()
    ensures ParseInt(" - 5") == Ok(-5)
  {
    assert TrimStart(" - 5") == "- 5" && TrimStart(" 5") == "5";
    assert DigitRun("5") == 1 && DigitsValue("5") == 5;
  }

  /** An information separator (U+001C) is whitespace to `long()` on
      text. */
  lemma ParseIntSeparator()
    ensures ParseInt([28 as char, '5']) == Ok(5)
  {
    assert TrimStart([28 as char, '5']) == "5";
    assert DigitRun("5") == 1 && DigitsValue("5") == 5;
  }

  /** `long()` accepts the `L` suffix. */
  lemma ParseIntSuffix()
    ensures ParseInt("12L") == Ok(12)
  {
    assert DigitRun("L") == 0 && DigitRun("2L") == 1 && DigitRun("12L") == 2;
    assert "12L"[..2] == "12" && DigitsValue("12") == 12;
  }

  /** The decimal numeral of a natural number, as `str(n)` writes it. */
  function DigitsOf(n: nat): (s: string)
    ensures |s| > 0 && AllDigits(s)
  {
    if n < 10 then [('0' as int + n) as char]
    else DigitsOf(n / 10) + [('0' as int + n % 10) as char]
  }

  /** `str(n)` for any integer. */
  function Show(n: int): (s: string)
    ensures |s| > 0
  {
    if n < 0 then "-" + DigitsOf(-n) else DigitsOf(n)
  }

  lemma {:induction false} DigitsValueOf(n: nat)
    ensures DigitsValue(DigitsOf(n)) == n
  {
    if n >= 10 {
      var s := DigitsOf(n);
      assert s[..|s| - 1] == DigitsOf(n / 10);
      DigitsValueOf(n / 10);
    }
  }

  /** Digits alone, as `str` writes a number that is not negative, are
      their own stripped form and their own digits. */
  lemma PlainDigits(t: string)
    requires |t| > 0 && AllDigits(t)
    ensures Strip(t) == t && Magnitude(Unsigned(t)) == t && t[0] != '-'
  {
    assert IsDigit(t[0]) && IsDigit(t[|t| - 1]);
  }

  /** A minus sign and digits, as `str` writes a negative number, are
      their own stripped form, and the digits are what follows the sign. */
  lemma PlainNegative(t: string)
    requires |t| > 1 && t[0] == '-' && AllDigits(t[1..])
    ensures Strip(t) == t && Magnitude(Unsigned(t)) == t[1..]
  {
    var d := t[1..];
    assert IsDigit(d[0]) && IsDigit(d[|d| - 1]) && t[|t| - 1] == d[|d| - 1];
    assert TrimStart(d) == d;
  }

  /** Such a numeral reads as its digits' value, negated after the sign. */
  lemma ParseStripped(t: string)
    requires Strip(t) == t && |Magnitude(Unsigned(t))| > 0 && AllDigits(Magnitude(Unsigned(t)))
    ensures var v: int := DigitsValue(Magnitude(Unsigned(t)));
            |t| > 0 && ParseInt(t) == Ok(if t[0] == '-' then -v else v)
  {
    ParseIntNumeral(t);
  }

  lemma ParseIntShow(n: int)
    ensures ParseInt(Show(n)) == Ok(n)
  {
    var t := Show(n);
    ShowShape(n);
    if n < 0 {
      PlainNegative(t);
    } else {
      PlainDigits(t);
    }
    ParseStripped(t);
  }

  /** `str(n)` is digits worth `n`, or a minus sign and digits worth
      `-n`. */
  lemma ShowShape(n: int)
    ensures n < 0 ==> var t := Show(n);
                      |t| > 1 && t[0] == '-' && AllDigits(t[1..]) && DigitsValue(t[1..]) == -n
    ensures n >= 0 ==> var t := Show(n);
                       |t| > 0 && AllDigits(t) && DigitsValue(t) == n
  {
    if n < 0 {
      assert Show(n)[1..] == DigitsOf(-n);
      DigitsValueOf(-n);
    } else {
      DigitsValueOf(n);
    }
  }

  /** A numeral as `str` writes it: digits without a leading zero (other
      than "0" itself), after a minus sign for a negative number. */
  predicate CanonicalDigits(t: string) {
    |t| > 0 && AllDigits(t) && (t[0] == '0' ==> |t| == 1)
  }

  predicate Canonical(t: string) {
    || CanonicalDigits(t)
    || (|t| > 1 && t[0] == '-' && CanonicalDigits(t[1..]) && t[1] != '0')
  }

  /** Digits without a leading zero are the numeral of their value. */
  lemma {:induction false} DigitsOfValue(t: string)
    requires CanonicalDigits(t)
    ensures DigitsOf(DigitsValue(t)) == t
    ensures |t| > 1 ==> DigitsValue(t) >= 10
    decreases |t|
  {
    if |t| > 1 {
      var init := t[..|t| - 1];
      assert init[0] == t[0];
      if |init| > 1 {
        DigitsOfValue(init);
      } else {
        assert init == [t[0]];
      }
      assert DigitsValue(init) >= 1;
    }
  }

  /** `str(int(t)) == t` for every numeral `str` could have written. */
  lemma ShowParseInt(t: string)
    requires Canonical(t)
    ensures ParseInt(t).Ok? && Show(ParseInt(t).value) == t
  {
    if CanonicalDigits(t) {
      ShowParseDigits(t);
    } else {
      ShowParseNegative(t);
    }
  }

  lemma ShowParseDigits(t: string)
    requires CanonicalDigits(t)
    ensures ParseInt(t) == Ok(DigitsValue(t) as int) && Show(DigitsValue(t)) == t
  {
    PlainDigits(t);
    ParseStripped(t);
    DigitsOfValue(t);
  }

  lemma ShowParseNegative(t: string)
    requires |t| > 1 && t[0] == '-' && CanonicalDigits(t[1..]) && t[1] != '0'
    ensures var v: int := DigitsValue(t[1..]);
            ParseInt(t) == Ok(-v) && Show(-v) == t
  {
    PlainNegative(t);
    ParseStripped(t);
    ShowNegative(t);
  }

  /** `str` writes the negated value of a canonical numeral's digits as
      that numeral with its minus sign. */
  lemma ShowNegative(t: string)
    requires |t| > 1 && t[0] == '-' && CanonicalDigits(t[1..]) && t[1] != '0'
    ensures Show(-(DigitsValue(t[1..]) as int)) == t
  {
    var d := t[1..];
    DigitsOfValue(d);
    var v: int := DigitsValue(d);
    assert v > 0 by {
      assert d[0] != '0';
    }
    assert Show(-v) == "-" + d;
    assert t == "-" + d;
  }

  // ---------------------------------------------------------------------
  // Lookups in sections and in split lines
  // ---------------------------------------------------------------------

  /** The position of the first item whose key is `key`, or `|items|` if
      there is none. */
  function KeyIndex<V>(items: seq<(string, V)>, key: string): (n: nat)
    ensures n <= |items|
    ensures forall j :: 0 <= j < n ==> items[j].0 != key
    ensures n < |items| ==> items[n].0 == key
  {
    if |items| == 0 || items[0].0 == key then 0
    else
      var n := 1 + KeyIndex(items[1..], key);
      assert forall j :: 1 <= j < n ==> items[j] == items[1..][j - 1];
      n
  }

  /** `sec[key]`: a `KeyError` when the section has no line for `key`. */
  function Get(entries: seq<Entry>, key: string): (r: Result<string>)
    ensures r.Ok? <==> exists k :: 0 <= k < |entries| && entries[k].0 == key
    ensures r.Ok? ==> exists k :: 0 <= k < |entries| && entries[k] == (key, r.value)
    ensures r.Err? ==> r.error == MissingKey(key)
  {
    var n := KeyIndex(entries, key);
    if n < |entries| then Ok(entries[n].1) else Err(MissingKey(key))
  }

  /** `int(sec[key])`. */
  function IntGet(entries: seq<Entry>, key: string): Result<int>
  {
    var text :- Get(entries, key);
    ParseInt(text)
  }

  /** `C[name]`: a `KeyError` when the file has no such section. */
  function SectionNamed(sections: seq<Section>, name: string): (r: Result<seq<Entry>>)
    ensures r.Ok? <==> exists k :: 0 <= k < |sections| && sections[k].0 == name
    ensures r.Ok? ==> exists k :: 0 <= k < |sections| && sections[k] == (name, r.value)
    ensures r.Err? ==> r.error == MissingSection(name)
  {
    var n := KeyIndex(sections, name);
    if n < |sections| then Ok(sections[n].1) else Err(MissingSection(name))
  }

  /** `val[i]` on a split line: an `IndexError` past its end. */
  function Field(val: seq<string>, i: nat): (r: Result<string>)
    ensures r.Ok? <==> i < |val|
    ensures r.Ok? ==> r.value == val[i]
    ensures r.Err? ==> r.error == MissingField(i)
  {
    if i < |val| then Ok(val[i]) else Err(MissingField(i))
  }

  /** `int(val[i])`. */
  function IntField(val: seq<string>, i: nat): Result<int>
  {
    var text :- Field(val, i);
    ParseInt(text)
  }

  /** The position of the first `x` in `s`, or `|s|` if there is none. */
  function IndexOf<T(==)>(s: seq<T>, x: T): (n: nat)
    ensures n <= |s|
    ensures forall j :: 0 <= j < n ==> s[j] != x
    ensures n < |s| ==> s[n] == x
  {
    if |s| == 0 || s[0] == x then 0
    else
      var n := 1 + IndexOf(s[1..], x);
      assert forall j :: 1 <= j < n ==> s[j] == s[1..][j - 1];
      n
  }

  /** Python's `s[lo:hi]` for bounds that are not negative: clamped to
      the string, and empty when `hi <= lo`. */
  function Slice(s: string, lo: nat, hi: nat): (r: string)
    ensures lo <= hi <= |s| ==> r == s[lo..hi]
    ensures hi <= lo || |s| <= lo ==> r == ""
  {
    var h := if hi <= |s| then hi else |s|;
    if lo < h then s[lo..h] else ""
  }

  // ---------------------------------------------------------------------
  // pairwise
  // ---------------------------------------------------------------------

  /** `pairwise(s)`: (s0, s1), (s2, s3), ...; an odd last element is
      dropped, as `izip` drops it. */
  function Pairwise<T>(s: seq<T>): (r: seq<(T, T)>)
    ensures |r| == |s| / 2
  {
    if |s| < 2 then [] else [(s[0], s[1])] + Pairwise(s[2..])
  }

  /** The k-th pair is made of elements 2k and 2k+1. */
  lemma {:induction false} PairwiseAt<T>(s: seq<T>, k: nat)
    requires k < |s| / 2
    ensures Pairwise(s)[k] == (s[2 * k], s[2 * k + 1])
  {
    if k > 0 {
      PairwiseAt(s[2..], k - 1);
    }
  }

  // ---------------------------------------------------------------------
  // The shape of the interpreter's loops
  // ---------------------------------------------------------------------
  // Each loop applies a decoder to one line (or pair of lines, or section)
  // at a time and stops at the first failure. The decoder is a parameter,
  // so what is proved about a loop holds whatever it decodes.

  /** `ys` is what `f` decodes from `xs`, element by element. */
  ghost predicate Decodes<A, B>(f: A -> Result<B>, xs: seq<A>, ys: seq<B>)
  {
    |xs| == |ys| && forall k :: 0 <= k < |xs| ==> f(xs[k]) == Ok(ys[k])
  }

  /** `f` applied to `xs[i..]` in order, after `acc`; the first error stops
      the loop and is its result. */
  function MapFrom<A, B>(f: A -> Result<B>, xs: seq<A>, i: nat, acc: seq<B>): (r: Result<seq<B>>)
    requires i <= |xs|
    ensures r.Ok? <==> forall k :: i <= k < |xs| ==> f(xs[k]).Ok?
    ensures r.Ok? ==> |acc| <= |r.value| && r.value[..|acc|] == acc && Decodes(f, xs[i..], r.value[|acc|..])
    ensures r.Err? ==> exists k :: i <= k < |xs| && f(xs[k]) == Err(r.error)
    decreases |xs| - i
  {
    if i == |xs| then Ok(acc)
    else
      var y := f(xs[i]);
      if y.Err? then Err(y.error)
      else
        var r := MapFrom(f, xs, i + 1, acc + [y.value]);
        if r.Ok? then
          assert r.value[..|acc| + 1][..|acc|] == acc;
          r
        else r
  }

  /** The elements of `xs` that `keep` accepts, in order. */
  function Filter<A>(keep: A -> bool, xs: seq<A>): (r: seq<A>)
    ensures |r| <= |xs|
    ensures forall k :: 0 <= k < |r| ==> keep(r[k])
  {
    if |xs| == 0 then []
    else (if keep(xs[0]) then [xs[0]] else []) + Filter(keep, xs[1..])
  }

  /** Filtering the suffix from `i` takes `xs[i]` first, if it is kept. */
  lemma FilterStep<A>(keep: A -> bool, xs: seq<A>, i: nat)
    requires i < |xs|
    ensures Filter(keep, xs[i..]) == (if keep(xs[i]) then [xs[i]] else []) + Filter(keep, xs[i + 1..])
  {
    assert xs[i..][1..] == xs[i + 1..];
  }

  /** Decoding `[x] + rest` from its second element on is decoding `rest`. */
  lemma {:induction false} MapFromTail<A, B>(f: A -> Result<B>, x: A, rest: seq<A>, j: nat, acc: seq<B>)
    requires j <= |rest|
    ensures MapFrom(f, [x] + rest, j + 1, acc) == MapFrom(f, rest, j, acc)
    decreases |rest| - j
  {
    if j < |rest| {
      assert ([x] + rest)[j + 1] == rest[j];
      var y := f(rest[j]);
      if y.Ok? {
        MapFromTail(f, x, rest, j + 1, acc + [y.value]);
      }
    }
  }

  /** The loop over `xs[i..]` that skips the elements `keep` refuses and
      decodes the others with `f`, after `acc`: it decodes the kept
      elements in order, as if they had been filtered out first. */
  function FilterMapFrom<A, B>(keep: A -> bool, f: A -> Result<B>, xs: seq<A>, i: nat, acc: seq<B>)
    : (r: Result<seq<B>>)
    requires i <= |xs|
    ensures r == MapFrom(f, Filter(keep, xs[i..]), 0, acc)
    decreases |xs| - i
  {
    if i == |xs| then
      assert Filter(keep, xs[i..]) == [];
      Ok(acc)
    else
      FilterStep(keep, xs, i);
      if !keep(xs[i]) then
        assert Filter(keep, xs[i..]) == Filter(keep, xs[i + 1..]);
        FilterMapFrom(keep, f, xs, i + 1, acc)
      else
        var y := f(xs[i]);
        if y.Err? then Err(y.error)
        else
          MapFromTail(f, xs[i], Filter(keep, xs[i + 1..]), 0, acc + [y.value]);
          FilterMapFrom(keep, f, xs, i + 1, acc + [y.value])
  }

  // ---------------------------------------------------------------------
  // Probe pairs of a Unit<N>_Block section
  // ---------------------------------------------------------------------

  /** The linear index of the cell at (x, y): the row count, not the column
      count, is the stride. */
  function LinearIndex(x: int, y: int, numRows: int): int
  {
    y * numRows + x
  }

  /** `a * n` grows with `a` when `n` is positive. */
  lemma MulGrows(a: int, b: int, n: int)
    requires a < b && n > 0
    ensures a * n + n <= b * n
  {
    assert b * n - a * n == (b - a) * n;
    assert (b - a) * n == (b - a - 1) * n + n;
  }

  /** On a grid whose stride `numRows` is positive the index gives back the
      coordinates, as long as `0 <= x < numRows`. */
  lemma LinearIndexCoords(x: int, y: int, numRows: int)
    requires 0 <= x < numRows
    ensures LinearIndex(x, y, numRows) / numRows == y
    ensures LinearIndex(x, y, numRows) % numRows == x
  {
    var i := LinearIndex(x, y, numRows);
    var q, m := i / numRows, i % numRows;
    assert i == q * numRows + m && 0 <= m < numRows;
    if q < y {
      MulGrows(q, y, numRows);
    } else if y < q {
      MulGrows(y, q, numRows);
    }
  }

  /** Two cells inside the grid's `numRows` columns of x have the same
      index exactly when they are the same cell. */
  lemma LinearIndexInjective(x1: int, y1: int, x2: int, y2: int, numRows: int)
    requires 0 <= x1 < numRows && 0 <= x2 < numRows
    ensures LinearIndex(x1, y1, numRows) == LinearIndex(x2, y2, numRows) <==> x1 == x2 && y1 == y2
  {
    LinearIndexCoords(x1, y1, numRows);
    LinearIndexCoords(x2, y2, numRows);
  }

  /** A cell line is a mismatch probe when its probe base (field 8) equals
      its target base (field 9). */
  predicate IsMismatch(val: seq<string>)
    requires |val| >= 10
  {
    val[8] == val[9]
  }

  /** The split PM line and MM line of a pair of cell lines, in that order:
      fields 8 and 9 of both lines are read, and the pair must hold exactly
      one mismatch line. */
  function Classify(val1: seq<string>, val2: seq<string>): (r: Result<(seq<string>, seq<string>)>)
    ensures r.Ok? <==> |val1| >= 10 && |val2| >= 10 && IsMismatch(val1) != IsMismatch(val2)
    ensures r.Ok? ==> (r.value == (val1, val2) || r.value == (val2, val1))
                      && !IsMismatch(r.value.0) && IsMismatch(r.value.1)
    ensures |val1| < 9 ==> r == Err(MissingField(8))
    ensures |val1| == 9 ==> r == Err(MissingField(9))
    ensures |val1| >= 10 && |val2| < 9 ==> r == Err(MissingField(8))
    ensures |val1| >= 10 && |val2| == 9 ==> r == Err(MissingField(9))
    ensures |val1| >= 10 && |val2| >= 10 && IsMismatch(val1) == IsMismatch(val2) ==> r == Err(NotOnePmOneMm)
  {
    var a8 :- Field(val1, 8);
    var a9 :- Field(val1, 9);
    var b8 :- Field(val2, 8);
    var b9 :- Field(val2, 9);
    if (a8 == a9) == (b8 == b9) then Err(NotOnePmOneMm)
    else if a8 == a9 then Ok((val2, val1))
    else Ok((val1, val2))
  }

  /** The probe of a split cell line: coordinates from fields 0 and 1,
      index computed from them. */
  function ProbeAt(val: seq<string>, numRows: int): (r: Result<Probe>)
    ensures r.Ok? <==> |val| >= 2 && ParseInt(val[0]).Ok? && ParseInt(val[1]).Ok?
    ensures r.Ok? ==> r.value.coords == (ParseInt(val[0]).value, ParseInt(val[1]).value)
                      && r.value.index == LinearIndex(r.value.coords.0, r.value.coords.1, numRows)
  {
    var x :- IntField(val, 0);
    var y :- IntField(val, 1);
    Ok(Probe((x, y), LinearIndex(x, y, numRows)))
  }

  /** `pair` was read from the PM line `pm` and the MM line `mm`. */
  predicate PairFrom(pair: ProbePair, pm: seq<string>, mm: seq<string>, numRows: int)
  {
    |pm| >= 12 && |mm| >= 10 && !IsMismatch(pm) && IsMismatch(mm)
    && ParseInt(pm[0]) == Ok(pair.pm.coords.0) && ParseInt(pm[1]) == Ok(pair.pm.coords.1)
    && ParseInt(mm[0]) == Ok(pair.mm.coords.0) && ParseInt(mm[1]) == Ok(pair.mm.coords.1)
    && pair.pm.index == LinearIndex(pair.pm.coords.0, pair.pm.coords.1, numRows)
    && pair.mm.index == LinearIndex(pair.mm.coords.0, pair.mm.coords.1, numRows)
    && ParseInt(pm[11]) == Ok(pair.pm.index)
  }

  /** `pm` and `mm` are a PM line and an MM line that make a probe pair:
      integer coordinates in both, and a PM index in field 11 that agrees
      with the PM coordinates. */
  predicate PairLines(pm: seq<string>, mm: seq<string>, numRows: int)
  {
    |pm| >= 12 && |mm| >= 10 && !IsMismatch(pm) && IsMismatch(mm)
    && ParseInt(pm[0]).Ok? && ParseInt(pm[1]).Ok? && ParseInt(mm[0]).Ok? && ParseInt(mm[1]).Ok?
    && ParseInt(pm[11]) == Ok(LinearIndex(ParseInt(pm[0]).value, ParseInt(pm[1]).value, numRows))
  }

  /** One iteration of the pairing loop: split both lines on tabs, tell the
      PM line from the MM line, and check the PM index against field 11.
      The pair is accepted exactly when the two lines, in either order, are
      a PM line and an MM line that make a probe pair. */
  function PairOf(first: Entry, second: Entry, numRows: int): (r: Result<ProbePair>)
    ensures var val1, val2 := Split(first.1, '\t'), Split(second.1, '\t');
            r.Ok? <==> PairLines(val1, val2, numRows) || PairLines(val2, val1, numRows)
    ensures r.Ok? ==> var val1, val2 := Split(first.1, '\t'), Split(second.1, '\t');
                      PairFrom(r.value, val1, val2, numRows) || PairFrom(r.value, val2, val1, numRows)
    ensures var val1, val2 := Split(first.1, '\t'), Split(second.1, '\t');
            |val1| >= 10 && |val2| >= 10 && IsMismatch(val1) == IsMismatch(val2) ==> r == Err(NotOnePmOneMm)
  {
    var lines :- Classify(Split(first.1, '\t'), Split(second.1, '\t'));
    var pm, mm := lines.0, lines.1;
    var mmProbe :- ProbeAt(mm, numRows);
    var x :- IntField(pm, 0);
    var y :- IntField(pm, 1);
    var listed :- IntField(pm, 11);
    if LinearIndex(x, y, numRows) != listed then Err(PmIndexMismatch(LinearIndex(x, y, numRows), listed))
    else Ok(ProbePair(Probe((x, y), LinearIndex(x, y, numRows)), mmProbe))
  }

  /** The pairing loop's decoder: one pair of lines, on a grid of stride
      `numRows`. */
  function PairStep(numRows: int): ((Entry, Entry)) -> Result<ProbePair>
  {
    (pair: (Entry, Entry)) => PairOf(pair.0, pair.1, numRows)
  }

  /** The lines after the first `CellHeader` line, none if there is none:
      the part of a block section the pairing loop is meant to consume. */
  function CellLines(entries: seq<Entry>): seq<Entry>
  {
    var h := KeyIndex(entries, "CellHeader");
    if h < |entries| then entries[h + 1..] else []
  }

  /** `k[4:k.index('_')]`: the text between `Unit` and the first `_` of a
      block section's name. */
  function BlockIdText(name: string): (t: string)
    ensures StartsWith(name, "Unit") && '_' in name ==>
              '_' !in t && 4 + |t| < |name| && name[..4] + t + name[4 + |t|..] == name && name[4 + |t|] == '_'
  {
    var u := IndexOf(name, '_');
    assert StartsWith(name, "Unit") && '_' in name ==> name[..4] + name[4..u] + name[u..] == name;
    Slice(name, 4, u)
  }

  /** Every two lines 2k, 2k+1 of `lines` make a probe pair. */
  predicate PairsOk(lines: seq<Entry>, numRows: int)
  {
    forall k :: 0 <= k < |lines| / 2 ==> PairOf(lines[2 * k], lines[2 * k + 1], numRows).Ok?
  }

  /** `pairs` are the probe pairs of lines 2k and 2k+1 of `lines`, in order. */
  predicate PairsOf(lines: seq<Entry>, numRows: int, pairs: seq<ProbePair>)
  {
    |pairs| == |lines| / 2
    && forall k :: 0 <= k < |lines| / 2 ==> PairOf(lines[2 * k], lines[2 * k + 1], numRows) == Ok(pairs[k])
  }

  /** The pairing loop succeeds exactly when every two lines 2k, 2k+1 make
      a probe pair, and then the k-th probe pair is theirs. */
  lemma PairsDecoded(lines: seq<Entry>, numRows: int)
    ensures var r := MapFrom(PairStep(numRows), Pairwise(lines), 0, []);
            && (r.Ok? <==> PairsOk(lines, numRows))
            && (r.Ok? ==> PairsOf(lines, numRows, r.value))
  {
    var pairs := Pairwise(lines);
    forall k | 0 <= k < |lines| / 2
      ensures PairStep(numRows)(pairs[k]) == PairOf(lines[2 * k], lines[2 * k + 1], numRows)
    {
      PairwiseAt(lines, k);
    }
    assert pairs[0..] == pairs;
    var r := MapFrom(PairStep(numRows), pairs, 0, []);
    if r.Ok? {
      assert r.value[0..] == r.value;
      assert Decodes(PairStep(numRows), pairs, r.value);
    }
  }

  /** A block section's probe set once its pairs are read: the pairing
      loop's error, or the count check against `NumAtoms`. */
  function WithPairs(id: int, geneId: string, numPairs: int, pairs: Result<seq<ProbePair>>): (r: Result<ExpProbeSet>)
    ensures r.Ok? <==> pairs.Ok? && |pairs.value| == numPairs
    ensures r.Ok? ==> r.value == ExpProbeSet(id, geneId, pairs.value)
  {
    var probePairs :- pairs;
    if |probePairs| != numPairs then Err(CountMismatch(|probePairs|, numPairs))
    else Ok(ExpProbeSet(id, geneId, probePairs))
  }

  /** A `Unit<N>_Block` section whose probe pairs are read from `lines`:
      it is accepted exactly when its id parses, it has a `Name`, every two
      lines make a probe pair and `NumAtoms` counts those pairs; then the
      k-th pair comes from lines 2k and 2k+1. */
  function BlockSetWith(name: string, entries: seq<Entry>, numRows: int, lines: seq<Entry>)
    : (r: Result<ExpProbeSet>)
    ensures r.Ok? <==> ParseInt(BlockIdText(name)).Ok? && Get(entries, "Name").Ok?
                       && IntGet(entries, "NumAtoms") == Ok(|lines| / 2) && PairsOk(lines, numRows)
    ensures r.Ok? ==> ParseInt(BlockIdText(name)) == Ok(r.value.id)
                      && Get(entries, "Name") == Ok(r.value.geneId)
                      && IntGet(entries, "NumAtoms") == Ok(|r.value.probePairs|)
                      && PairsOf(lines, numRows, r.value.probePairs)
  {
    var id :- ParseInt(BlockIdText(name));
    var geneId :- Get(entries, "Name");
    var numPairs :- IntGet(entries, "NumAtoms");
    var pairs := MapFrom(PairStep(numRows), Pairwise(lines), 0, []);
    PairsDecoded(lines, numRows);
    WithPairs(id, geneId, numPairs, pairs)
  }

  /** A `Unit<N>_Block` section as the source reads it: the loop that skips
      to `CellHeader` walks a list, and `pairwise` starts a fresh pass over
      that list, so the pairs begin at the section's first line. */
  function BlockSetAsWritten(name: string, entries: seq<Entry>, numRows: int): (r: Result<ExpProbeSet>)
    ensures r.Ok? ==> IntGet(entries, "NumAtoms") == Ok(|r.value.probePairs|)
                      && PairsOf(entries, numRows, r.value.probePairs)
  {
    BlockSetWith(name, entries, numRows, entries)
  }

  /** A `Unit<N>_Block` section read as intended: the cell lines after
      `CellHeader`, two by two, give exactly `NumAtoms` probe pairs. */
  function BlockSetOf(name: string, entries: seq<Entry>, numRows: int): (r: Result<ExpProbeSet>)
    ensures r.Ok? <==> ParseInt(BlockIdText(name)).Ok? && Get(entries, "Name").Ok?
                       && IntGet(entries, "NumAtoms") == Ok(|CellLines(entries)| / 2)
                       && PairsOk(CellLines(entries), numRows)
    ensures r.Ok? ==> ParseInt(BlockIdText(name)) == Ok(r.value.id)
                      && Get(entries, "Name") == Ok(r.value.geneId)
                      && IntGet(entries, "NumAtoms") == Ok(|r.value.probePairs|)
                      && PairsOf(CellLines(entries), numRows, r.value.probePairs)
  {
    BlockSetWith(name, entries, numRows, CellLines(entries))
  }

  lemma {:induction false} SplitWithoutSeparator(s: string, sep: char)
    requires sep !in s
    ensures Split(s, sep) == [s]
    decreases |s|
  {
    if |s| > 0 {
      SplitWithoutSeparator(s[1..], sep);
      assert [s[0]] + s[1..] == s;
    }
  }

  /** As written, any block section that gets as far as pairing and whose
      first line's value holds no tab (the `Name` line of every GC3.0 block
      section) fails on field 8 of that line, whatever its cell lines say. */
  lemma AsWrittenRejectsBlocks(name: string, entries: seq<Entry>, numRows: int)
    requires StartsWith(name, "Unit") && '_' in name
    requires ParseInt(BlockIdText(name)).Ok?
    requires Get(entries, "Name").Ok? && IntGet(entries, "NumAtoms").Ok?
    requires |entries| >= 2 && '\t' !in entries[0].1
    ensures BlockSetAsWritten(name, entries, numRows) == Err(MissingField(8))
  {
    SplitWithoutSeparator(entries[0].1, '\t');
    PairwiseAt(entries, 0);
    var pairs := Pairwise(entries);
    assert PairStep(numRows)(pairs[0]) == Err(MissingField(8));
  }

  // ---------------------------------------------------------------------
  // QC<N> sections and Unit<N> metadata sections
  // ---------------------------------------------------------------------

  /** The lines a QC section's loop keeps: `Cell...` other than `CellHeader`. */
  predicate IsQcCellLine(line: Entry)
  {
    StartsWith(line.0, "Cell") && line.0 != "CellHeader"
  }

  /** The probe of a QC cell line: coordinates from fields 0 and 1, index
      from field 5. */
  function QcProbeOf(line: Entry): (r: Result<Probe>)
    ensures var val := Split(line.1, '\t');
            r.Ok? <==> |val| >= 6 && ParseInt(val[0]).Ok? && ParseInt(val[1]).Ok? && ParseInt(val[5]).Ok?
    ensures var val := Split(line.1, '\t');
            r.Ok? ==> r.value == Probe((ParseInt(val[0]).value, ParseInt(val[1]).value), ParseInt(val[5]).value)
  {
    var val := Split(line.1, '\t');
    var x :- IntField(val, 0);
    var y :- IntField(val, 1);
    var index :- IntField(val, 5);
    Ok(Probe((x, y), index))
  }

  /** A `QC<N>` section: N from the name, its `Type`, and exactly
      `NumberCells` probes, the k-th from the k-th kept cell line. */
  function QcSetOf(name: string, entries: seq<Entry>): (r: Result<QcProbeSet>)
    ensures r.Ok? <==> var cells := Filter(IsQcCellLine, entries);
                       ParseInt(Slice(name, 2, |name|)).Ok? && IntGet(entries, "Type").Ok?
                       && IntGet(entries, "NumberCells") == Ok(|cells|)
                       && forall k :: 0 <= k < |cells| ==> QcProbeOf(cells[k]).Ok?
    ensures r.Ok? ==> var cells := Filter(IsQcCellLine, entries);
                      ParseInt(Slice(name, 2, |name|)) == Ok(r.value.id)
                      && IntGet(entries, "Type") == Ok(r.value.qcType)
                      && IntGet(entries, "NumberCells") == Ok(|r.value.probes|)
                      && Decodes(QcProbeOf, cells, r.value.probes)
  {
    var id :- ParseInt(Slice(name, 2, |name|));
    var qcType :- IntGet(entries, "Type");
    var numProbes :- IntGet(entries, "NumberCells");
    assert entries[0..] == entries;
    var probes :- FilterMapFrom(IsQcCellLine, QcProbeOf, entries, 0, []);
    if |probes| != numProbes then Err(CountMismatch(|probes|, numProbes))
    else Ok(QcProbeSet(id, qcType, probes))
  }

  /** A `Unit<N>` metadata section: its `UnitNumber`, provided `UnitType`
      is 3 (expression) and `NumberBlocks` is 1. */
  function UnitCheck(entries: seq<Entry>): (r: Result<int>)
    ensures r.Ok? <==> IntGet(entries, "UnitNumber").Ok? && IntGet(entries, "UnitType") == Ok(3)
                       && IntGet(entries, "NumberBlocks") == Ok(1)
    ensures r.Ok? ==> IntGet(entries, "UnitNumber") == Ok(r.value)
  {
    var unitNumber :- IntGet(entries, "UnitNumber");
    var unitType :- IntGet(entries, "UnitType");
    if unitType != 3 then Err(BadUnitType(unitType))
    else
      var blocks :- IntGet(entries, "NumberBlocks");
      if blocks != 1 then Err(BadBlockCount(blocks))
      else Ok(unitNumber)
  }

  // ---------------------------------------------------------------------
  // The loop over all sections
  // ---------------------------------------------------------------------

  predicate IsQcSection(section: Section) { StartsWith(section.0, "QC") }

  predicate IsBlockSection(section: Section)
  {
    !StartsWith(section.0, "QC") && StartsWith(section.0, "Unit") && '_' in section.0
  }

  /** What the loop has built so far: the two lists and the counter `c` of
      block sections met. */
  datatype Tally = Tally(qc: seq<QcProbeSet>, exp: seq<ExpProbeSet>, c: int)

  /** The tally after a QC section decoded to `q`. */
  function WithQc(q: Result<QcProbeSet>, t: Tally): Result<Tally>
  {
    if q.Err? then Err(q.error) else Ok(t.(qc := t.qc + [q.value]))
  }

  /** The tally after a block section decoded to `b`: counted and collected. */
  function WithBlock(b: Result<ExpProbeSet>, t: Tally): Result<Tally>
  {
    if b.Err? then Err(b.error) else Ok(Tally(t.qc, t.exp + [b.value], t.c + 1))
  }

  /** One iteration of the loop over sections, with the decoders of QC and
      block sections as parameters. */
  function SectionStep(qcSet: (string, seq<Entry>) -> Result<QcProbeSet>,
                       blockSet: (string, seq<Entry>, int) -> Result<ExpProbeSet>,
                       numRows: int, section: Section, t: Tally): Result<Tally>
  {
    var (name, entries) := section;
    if StartsWith(name, "QC") then
      WithQc(qcSet(name, entries), t)
    else if StartsWith(name, "Unit") then
      if '_' !in name then
        var unitNumber :- UnitCheck(entries);
        Ok(t)
      else
        WithBlock(blockSet(name, entries, numRows), t)
    else Ok(t)
  }

  /** The loop over sections from section `i` on. */
  function SectionsFrom(qcSet: (string, seq<Entry>) -> Result<QcProbeSet>,
                        blockSet: (string, seq<Entry>, int) -> Result<ExpProbeSet>,
                        numRows: int, sections: seq<Section>, i: nat, t: Tally): (r: Result<Tally>)
    requires i <= |sections|
    decreases |sections| - i
  {
    if i == |sections| then Ok(t)
    else
      var t' :- SectionStep(qcSet, blockSet, numRows, sections[i], t);
      SectionsFrom(qcSet, blockSet, numRows, sections, i + 1, t')
  }

  /** The QC list `SectionsFrom` builds after `t` keeps file order: the
      k-th new QC probe set comes from the k-th QC section. */
  predicate CollectedQc(qcSet: (string, seq<Entry>) -> Result<QcProbeSet>,
                        sections: seq<Section>, t: Tally, v: Tally)
  {
    var qcs := Filter(IsQcSection, sections);
    |v.qc| == |t.qc| + |qcs| && v.qc[..|t.qc|] == t.qc
    && forall k :: 0 <= k < |qcs| ==> qcSet(qcs[k].0, qcs[k].1) == Ok(v.qc[|t.qc| + k])
  }

  /** The expression list `SectionsFrom` builds after `t` keeps file order:
      the k-th new expression probe set comes from the k-th block section,
      and `c` counts the block sections. */
  predicate CollectedBlocks(blockSet: (string, seq<Entry>, int) -> Result<ExpProbeSet>,
                            numRows: int, sections: seq<Section>, t: Tally, v: Tally)
  {
    var blocks := Filter(IsBlockSection, sections);
    |v.exp| == |t.exp| + |blocks| && v.exp[..|t.exp|] == t.exp
    && v.c == t.c + |blocks|
    && forall k :: 0 <= k < |blocks| ==> blockSet(blocks[k].0, blocks[k].1, numRows) == Ok(v.exp[|t.exp| + k])
  }

  predicate Collected(qcSet: (string, seq<Entry>) -> Result<QcProbeSet>,
                      blockSet: (string, seq<Entry>, int) -> Result<ExpProbeSet>,
                      numRows: int, sections: seq<Section>, t: Tally, v: Tally)
  {
    CollectedQc(qcSet, sections, t, v) && CollectedBlocks(blockSet, numRows, sections, t, v)
  }

  lemma CollectedQcStep(qcSet: (string, seq<Entry>) -> Result<QcProbeSet>,
                        blockSet: (string, seq<Entry>, int) -> Result<ExpProbeSet>,
                        numRows: int, sections: seq<Section>, i: nat, t: Tally, t': Tally, v: Tally)
    requires i < |sections|
    requires SectionStep(qcSet, blockSet, numRows, sections[i], t) == Ok(t')
    requires CollectedQc(qcSet, sections[i + 1..], t', v)
    ensures CollectedQc(qcSet, sections[i..], t, v)
  {
    FilterStep(IsQcSection, sections, i);
    if IsQcSection(sections[i]) {
      assert v.qc[..|t'.qc|][..|t.qc|] == t.qc;
    }
  }

  lemma CollectedBlocksStep(qcSet: (string, seq<Entry>) -> Result<QcProbeSet>,
                            blockSet: (string, seq<Entry>, int) -> Result<ExpProbeSet>,
                            numRows: int, sections: seq<Section>, i: nat, t: Tally, t': Tally, v: Tally)
    requires i < |sections|
    requires SectionStep(qcSet, blockSet, numRows, sections[i], t) == Ok(t')
    requires CollectedBlocks(blockSet, numRows, sections[i + 1..], t', v)
    ensures CollectedBlocks(blockSet, numRows, sections[i..], t, v)
  {
    FilterStep(IsBlockSection, sections, i);
    if IsBlockSection(sections[i]) {
      assert v.exp[..|t'.exp|][..|t.exp|] == t.exp;
    }
  }

  /** Whatever the decoders, a loop that succeeds has collected the QC and
      block sections in file order. */
  lemma {:induction false} SectionsCollected(qcSet: (string, seq<Entry>) -> Result<QcProbeSet>,
                                             blockSet: (string, seq<Entry>, int) -> Result<ExpProbeSet>,
                                             numRows: int, sections: seq<Section>, i: nat, t: Tally)
    requires i <= |sections|
    requires SectionsFrom(qcSet, blockSet, numRows, sections, i, t).Ok?
    ensures Collected(qcSet, blockSet, numRows, sections[i..], t,
                      SectionsFrom(qcSet, blockSet, numRows, sections, i, t).value)
    decreases |sections| - i
  {
    if i == |sections| {
      assert Filter(IsQcSection, sections[i..]) == [] && Filter(IsBlockSection, sections[i..]) == [];
    } else {
      var t' := SectionStep(qcSet, blockSet, numRows, sections[i], t).value;
      SectionsCollected(qcSet, blockSet, numRows, sections, i + 1, t');
      var v := SectionsFrom(qcSet, blockSet, numRows, sections, i, t).value;
      CollectedQcStep(qcSet, blockSet, numRows, sections, i, t, t', v);
      CollectedBlocksStep(qcSet, blockSet, numRows, sections, i, t, t', v);
    }
  }

  /** `section` passes the loop's checks on a grid of stride `numRows`. */
  predicate SectionOk(qcSet: (string, seq<Entry>) -> Result<QcProbeSet>,
                      blockSet: (string, seq<Entry>, int) -> Result<ExpProbeSet>,
                      numRows: int, section: Section)
  {
    SectionStep(qcSet, blockSet, numRows, section, Tally([], [], 0)).Ok?
  }

  /** Whether a section passes does not depend on what came before it. */
  lemma SectionOkAnyTally(qcSet: (string, seq<Entry>) -> Result<QcProbeSet>,
                          blockSet: (string, seq<Entry>, int) -> Result<ExpProbeSet>,
                          numRows: int, section: Section, t: Tally)
    ensures SectionStep(qcSet, blockSet, numRows, section, t).Ok? == SectionOk(qcSet, blockSet, numRows, section)
  {
  }

  /** The loop succeeds exactly when every section from `i` on passes. */
  lemma {:induction false} SectionsAccepted(qcSet: (string, seq<Entry>) -> Result<QcProbeSet>,
                                            blockSet: (string, seq<Entry>, int) -> Result<ExpProbeSet>,
                                            numRows: int, sections: seq<Section>, i: nat, t: Tally)
    requires i <= |sections|
    ensures SectionsFrom(qcSet, blockSet, numRows, sections, i, t).Ok?
            <==> forall j :: i <= j < |sections| ==> SectionOk(qcSet, blockSet, numRows, sections[j])
    decreases |sections| - i
  {
    if i < |sections| {
      SectionOkAnyTally(qcSet, blockSet, numRows, sections[i], t);
      var step := SectionStep(qcSet, blockSet, numRows, sections[i], t);
      if step.Ok? {
        SectionsAccepted(qcSet, blockSet, numRows, sections, i + 1, step.value);
      }
    }
  }

  /** The values `read_cdf` takes from the `[Chip]` section. */
  datatype ChipHeader = ChipHeader(name: string, numRows: int, numCols: int, numExp: int, numQc: int)

  /** The `[Chip]` section's `Name`, `Rows`, `Cols`, `NumberOfUnits` and
      `NumQCUnits`, the first missing or malformed one being the error. */
  function ChipOf(sections: seq<Section>): (r: Result<ChipHeader>)
    ensures r.Ok? <==> var chip := SectionNamed(sections, "Chip");
                       chip.Ok? && Get(chip.value, "Name").Ok? && IntGet(chip.value, "Rows").Ok?
                       && IntGet(chip.value, "Cols").Ok? && IntGet(chip.value, "NumberOfUnits").Ok?
                       && IntGet(chip.value, "NumQCUnits").Ok?
    ensures r.Ok? ==> var chip := SectionNamed(sections, "Chip").value;
                      Get(chip, "Name") == Ok(r.value.name)
                      && IntGet(chip, "Rows") == Ok(r.value.numRows)
                      && IntGet(chip, "Cols") == Ok(r.value.numCols)
                      && IntGet(chip, "NumberOfUnits") == Ok(r.value.numExp)
                      && IntGet(chip, "NumQCUnits") == Ok(r.value.numQc)
  {
    var chip :- SectionNamed(sections, "Chip");
    var name :- Get(chip, "Name");
    var numRows :- IntGet(chip, "Rows");
    var numCols :- IntGet(chip, "Cols");
    var numExp :- IntGet(chip, "NumberOfUnits");
    var numQc :- IntGet(chip, "NumQCUnits");
    Ok(ChipHeader(name, numRows, numCols, numExp, numQc))
  }

  /** The final count checks of `read_cdf` on what the loop collected. */
  function Checked(header: ChipHeader, t: Tally): (r: Result<ExpCdf>)
    ensures r.Ok? <==> |t.qc| == header.numQc && |t.exp| == header.numExp
    ensures r.Ok? ==> r.value == ExpCdf(header.name, header.numRows, header.numCols, t.qc, t.exp)
  {
    if |t.qc| != header.numQc then Err(CountMismatch(|t.qc|, header.numQc))
    else if |t.exp| != header.numExp then Err(CountMismatch(|t.exp|, header.numExp))
    else Ok(ExpCdf(header.name, header.numRows, header.numCols, t.qc, t.exp))
  }

  /** `ExpCDF.read_cdf` after tokenising: the header values of `[Chip]`,
      then every section in file order, then the two count checks. */
  function CdfOf(sections: seq<Section>): (r: Result<ExpCdf>)
  {
    var header :- ChipOf(sections);
    CdfAfterChip(header, sections)
  }

  /** `read_cdf` once the `[Chip]` header values are read. */
  function CdfAfterChip(header: ChipHeader, sections: seq<Section>): (r: Result<ExpCdf>)
  {
    var t :- SectionsFrom(QcSetOf, BlockSetOf, header.numRows, sections, 0, Tally([], [], 0));
    Checked(header, t)
  }

  /** `read_cdf` as written: the same loop, with block sections read by
      `BlockSetAsWritten`. */
  function CdfAsWritten(sections: seq<Section>): Result<ExpCdf>
  {
    var header :- ChipOf(sections);
    var t :- SectionsFrom(QcSetOf, BlockSetAsWritten, header.numRows, sections, 0, Tally([], [], 0));
    Checked(header, t)
  }

  /** As written, `read_cdf` rejects every file holding a block section
      that gets as far as pairing and whose first line has no tab, as the
      `Name` line of a GC3.0 block section has not. */
  lemma AsWrittenRejectsCdf(sections: seq<Section>, j: nat)
    requires ChipOf(sections).Ok?
    requires j < |sections| && IsBlockSection(sections[j])
    requires var (name, entries) := sections[j];
             && ParseInt(BlockIdText(name)).Ok? && Get(entries, "Name").Ok? && IntGet(entries, "NumAtoms").Ok?
             && |entries| >= 2 && '\t' !in entries[0].1
    ensures CdfAsWritten(sections).Err?
  {
    var numRows := ChipOf(sections).value.numRows;
    var (name, entries) := sections[j];
    AsWrittenRejectsBlocks(name, entries, numRows);
    assert !SectionOk(QcSetOf, BlockSetAsWritten, numRows, sections[j]);
    SectionsAccepted(QcSetOf, BlockSetAsWritten, numRows, sections, 0, Tally([], [], 0));
  }

  /** A CDF read without error: the `[Chip]` header gives the name and the
      grid, `NumQCUnits` counts the QC probe sets and `NumberOfUnits` the
      expression probe sets; the k-th QC probe set is read from the k-th
      `QC<N>` section and the k-th expression probe set from the k-th
      `Unit<N>_Block` section. */
  lemma CdfContents(sections: seq<Section>)
    requires CdfOf(sections).Ok?
    ensures var cdf := CdfOf(sections).value;
            var chip := SectionNamed(sections, "Chip").value;
            SectionNamed(sections, "Chip").Ok?
            && Get(chip, "Name") == Ok(cdf.name)
            && IntGet(chip, "Rows") == Ok(cdf.numRows)
            && IntGet(chip, "Cols") == Ok(cdf.numCols)
            && IntGet(chip, "NumQCUnits") == Ok(|cdf.qcProbeSets|)
            && IntGet(chip, "NumberOfUnits") == Ok(|cdf.expProbeSets|)
    ensures var cdf, qcs := CdfOf(sections).value, Filter(IsQcSection, sections);
            |cdf.qcProbeSets| == |qcs|
            && forall k :: 0 <= k < |qcs| ==> QcSetOf(qcs[k].0, qcs[k].1) == Ok(cdf.qcProbeSets[k])
    ensures var cdf, blocks := CdfOf(sections).value, Filter(IsBlockSection, sections);
            |cdf.expProbeSets| == |blocks|
            && forall k :: 0 <= k < |blocks| ==>
                 BlockSetOf(blocks[k].0, blocks[k].1, cdf.numRows) == Ok(cdf.expProbeSets[k])
  {
    var header := ChipOf(sections).value;
    var t := SectionsFrom(QcSetOf, BlockSetOf, header.numRows, sections, 0, Tally([], [], 0)).value;
    assert CdfOf(sections) == Checked(header, t);
    assert sections[0..] == sections;
    SectionsCollected(QcSetOf, BlockSetOf, header.numRows, sections, 0, Tally([], [], 0));
  }

  /** A CDF is read without error exactly when its `[Chip]` header is
      complete, every section passes, and there are `NumQCUnits` QC
      sections and `NumberOfUnits` block sections. */
  lemma CdfAccepts(sections: seq<Section>)
    ensures CdfOf(sections).Ok? <==>
              && ChipOf(sections).Ok?
              && (forall j :: 0 <= j < |sections| ==>
                    SectionOk(QcSetOf, BlockSetOf, ChipOf(sections).value.numRows, sections[j]))
              && |Filter(IsQcSection, sections)| == ChipOf(sections).value.numQc
              && |Filter(IsBlockSection, sections)| == ChipOf(sections).value.numExp
  {
    if ChipOf(sections).Ok? {
      AfterChipAccepts(ChipOf(sections).value, sections);
    }
  }

  /** After the header, every section must pass and the two counts must
      match. */
  lemma AfterChipAccepts(header: ChipHeader, sections: seq<Section>)
    ensures CdfAfterChip(header, sections).Ok? <==>
              && (forall j :: 0 <= j < |sections| ==>
                    SectionOk(QcSetOf, BlockSetOf, header.numRows, sections[j]))
              && |Filter(IsQcSection, sections)| == header.numQc
              && |Filter(IsBlockSection, sections)| == header.numExp
  {
    var start := Tally([], [], 0);
    SectionsAccepted(QcSetOf, BlockSetOf, header.numRows, sections, 0, start);
    var loop := SectionsFrom(QcSetOf, BlockSetOf, header.numRows, sections, 0, start);
    if loop.Ok? {
      assert sections[0..] == sections;
      SectionsCollected(QcSetOf, BlockSetOf, header.numRows, sections, 0, start);
    }
  }

  // ---------------------------------------------------------------------
  // The loops, as the source runs them
  // ---------------------------------------------------------------------

  /** The loop over a QC section's lines. */
  method ReadQcProbes(entries: seq<Entry>) returns (r: Result<seq<Probe>>)
    ensures r == FilterMapFrom(IsQcCellLine, QcProbeOf, entries, 0, [])
  {
    var probes := [];
    var i := 0;
    while i < |entries|
      invariant i <= |entries|
      invariant FilterMapFrom(IsQcCellLine, QcProbeOf, entries, i, probes)
                == FilterMapFrom(IsQcCellLine, QcProbeOf, entries, 0, [])
    {
      if IsQcCellLine(entries[i]) {
        var probe :- QcProbeOf(entries[i]);
        probes := probes + [probe];
      }
      i := i + 1;
    }
    return Ok(probes);
  }

  /** A `QC<N>` section. */
  method ReadQcSet(name: string, entries: seq<Entry>) returns (r: Result<QcProbeSet>)
    ensures r == QcSetOf(name, entries)
  {
    var id :- ParseInt(Slice(name, 2, |name|));
    var qcType :- IntGet(entries, "Type");
    var numProbes :- IntGet(entries, "NumberCells");
    var probes :- ReadQcProbes(entries);
    if |probes| != numProbes {
      return Err(CountMismatch(|probes|, numProbes));
    }
    return Ok(QcProbeSet(id, qcType, probes));
  }

  /** A `Unit<N>_Block` section: skip to the `CellHeader` line, then pair
      the lines after it. */
  method ReadBlockSet(name: string, entries: seq<Entry>, numRows: int) returns (r: Result<ExpProbeSet>)
    ensures r == BlockSetOf(name, entries, numRows)
  {
    var i := SkipToCells(entries);
    var lines := if i < |entries| then entries[i + 1..] else [];
    assert lines == CellLines(entries);
    r := ReadBlockWith(name, entries, numRows, lines);
  }

  /** The header values of a block section, then the pairing loop over
      `lines`. */
  method ReadBlockWith(name: string, entries: seq<Entry>, numRows: int, lines: seq<Entry>)
    returns (r: Result<ExpProbeSet>)
    ensures r == BlockSetWith(name, entries, numRows, lines)
  {
    var id :- ParseInt(BlockIdText(name));
    var geneId :- Get(entries, "Name");
    var numPairs :- IntGet(entries, "NumAtoms");
    var pairs := ReadPairs(lines, numRows);
    r := WithPairs(id, geneId, numPairs, pairs);
  }

  /** The loop that walks a block section's lines up to `CellHeader`. */
  method SkipToCells(entries: seq<Entry>) returns (i: nat)
    ensures i == KeyIndex(entries, "CellHeader")
  {
    i := 0;
    while i < |entries| && entries[i].0 != "CellHeader"
      invariant i <= |entries|
      invariant forall j :: 0 <= j < i ==> entries[j].0 != "CellHeader"
    {
      i := i + 1;
    }
  }

  /** The pairing loop over a block section's cell lines. */
  method ReadPairs(lines: seq<Entry>, numRows: int) returns (r: Result<seq<ProbePair>>)
    ensures r == MapFrom(PairStep(numRows), Pairwise(lines), 0, [])
  {
    var pairs := Pairwise(lines);
    var probePairs := [];
    for n := 0 to |pairs|
      invariant MapFrom(PairStep(numRows), pairs, n, probePairs) == MapFrom(PairStep(numRows), pairs, 0, [])
    {
      var pair :- PairOf(pairs[n].0, pairs[n].1, numRows);
      probePairs := probePairs + [pair];
    }
    return Ok(probePairs);
  }

  /** A `QC<N>` section: its probe set joins the QC list. */
  method AddQcSet(numRows: int, section: Section, t: Tally) returns (r: Result<Tally>)
    requires StartsWith(section.0, "QC")
    ensures r == SectionStep(QcSetOf, BlockSetOf, numRows, section, t)
  {
    var q := ReadQcSet(section.0, section.1);
    r := WithQc(q, t);
  }

  /** A `Unit<N>` metadata section: checked, nothing collected. */
  method CheckUnit(numRows: int, section: Section, t: Tally) returns (r: Result<Tally>)
    requires !StartsWith(section.0, "QC") && StartsWith(section.0, "Unit") && '_' !in section.0
    ensures r == SectionStep(QcSetOf, BlockSetOf, numRows, section, t)
  {
    var unitNumber :- UnitCheck(section.1);
    return Ok(t);
  }

  /** A `Unit<N>_Block` section: counted, and its probe set joins the
      expression list. */
  method AddBlockSet(numRows: int, section: Section, t: Tally) returns (r: Result<Tally>)
    requires IsBlockSection(section)
    ensures r == SectionStep(QcSetOf, BlockSetOf, numRows, section, t)
  {
    var b := ReadBlockSet(section.0, section.1, numRows);
    r := WithBlock(b, t);
  }

  /** One iteration of `read_cdf`'s loop over sections. */
  method ReadSection(numRows: int, section: Section, t: Tally) returns (r: Result<Tally>)
    ensures r == SectionStep(QcSetOf, BlockSetOf, numRows, section, t)
  {
    var k := section.0;
    if StartsWith(k, "QC") {
      r := AddQcSet(numRows, section, t);
    } else if StartsWith(k, "Unit") {
      if '_' !in k {
        r := CheckUnit(numRows, section, t);
      } else {
        r := AddBlockSet(numRows, section, t);
      }
    } else {
      r := Ok(t);
    }
  }

  /** `ExpCDF.read_cdf` on the tokenised file. */
  method ReadCdf(sections: seq<Section>) returns (r: Result<ExpCdf>)
    ensures r == CdfOf(sections)
  {
    var header :- ChipOf(sections);
    r := ReadAfterChip(header, sections);
  }

  /** The loop over sections and the count checks, once the header is
      read. */
  method ReadAfterChip(header: ChipHeader, sections: seq<Section>) returns (r: Result<ExpCdf>)
    ensures r == CdfAfterChip(header, sections)
  {
    var t := Tally([], [], 0);
    for i := 0 to |sections|
      invariant SectionsFrom(QcSetOf, BlockSetOf, header.numRows, sections, i, t)
                == SectionsFrom(QcSetOf, BlockSetOf, header.numRows, sections, 0, Tally([], [], 0))
    {
      t :- ReadSection(header.numRows, sections[i], t);
    }
    if |t.qc| != header.numQc {
      return Err(CountMismatch(|t.qc|, header.numQc));
    }
    if |t.exp| != header.numExp {
      return Err(CountMismatch(|t.exp|, header.numExp));
    }
    return Ok(ExpCdf(header.name, header.numRows, header.numCols, t.qc, t.exp));
  }
}
