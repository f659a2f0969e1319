/** The .NET text primitives the decoders use: `string.Trim`, `Int32.Parse` /
    `Int32.TryParse` with the `Integer` and `HexNumber` styles, `Int64.Parse`
    with `HexNumber`, `Convert.ToInt32(s, 16)`, `Int32.ToString()` and
    `string.Split(',', RemoveEmptyEntries)`. Number formatting and parsing is
    that of the invariant culture. */
module NumberText {
  import opened Wrappers
  import opened MachineInt

  /** The characters `char.IsWhiteSpace` accepts; `string.Trim()` strips them. */
  const WHITE_SPACE: set<char> := {
    ' ', '\t', '\n', '\U{B}', '\U{C}', '\r', '\U{85}', '\U{A0}', '\U{1680}',
    '\U{2000}', '\U{2001}', '\U{2002}', '\U{2003}', '\U{2004}', '\U{2005}',
    '\U{2006}', '\U{2007}', '\U{2008}', '\U{2009}', '\U{200A}',
    '\U{2028}', '\U{2029}', '\U{202F}', '\U{205F}', '\U{3000}'}

  /** The white space a number may carry before and after its digits
      (`NumberStyles.AllowLeadingWhite` and `AllowTrailingWhite`). */
  const NUMBER_WHITE: set<char> := {'\t', '\n', '\U{B}', '\U{C}', '\r', ' '}

  predicate AllIn(s: string, cs: set<char>) {
    forall k :: 0 <= k < |s| ==> s[k] in cs
  }

  /** `s` without its leading characters from `cs`. */
  function TrimStart(s: string, cs: set<char>): (r: string)
    ensures |r| <= |s| && r == s[|s| - |r|..]
    ensures r == [] || r[0] !in cs
    ensures AllIn(s[..|s| - |r|], cs)
  {
    if |s| > 0 && s[0] in cs then
      var r := TrimStart(s[1..], cs);
      assert s[..|s| - |r|] == [s[0]] + s[1..][..|s| - 1 - |r|];
      r
    else s
  }

  /** `s` without its trailing characters from `cs`. */
  function TrimEnd(s: string, cs: set<char>): (r: string)
    ensures |r| <= |s| && r == s[..|r|]
    ensures r == [] || r[|r| - 1] !in cs
    ensures AllIn(s[|r|..], cs)
  {
    if |s| > 0 && s[|s| - 1] in cs then
      var r := TrimEnd(s[..|s| - 1], cs);
      assert s[|r|..] == s[..|s| - 1][|r|..] + [s[|s| - 1]];
      r
    else s
  }

  /** `string.Trim(chars)`: both ends stripped of the characters in `cs`. */
  function Trim(s: string, cs: set<char>): string {
    TrimEnd(TrimStart(s, cs), cs)
  }

  /** `string.IsNullOrWhiteSpace` (a string is never null here). */
  predicate IsBlank(s: string) {
    AllIn(s, WHITE_SPACE)
  }

  lemma {:induction false} TrimStartPadded(w: string, y: string, cs: set<char>)
    requires AllIn(w, cs) && |y| > 0 && y[0] !in cs
    ensures TrimStart(w + y, cs) == y
    decreases |w|
  {
    if |w| > 0 {
      assert (w + y)[1..] == w[1..] + y;
      TrimStartPadded(w[1..], y, cs);
    } else {
      assert w + y == y;
    }
  }

  lemma {:induction false} TrimEndPadded(y: string, w: string, cs: set<char>)
    requires AllIn(w, cs) && |y| > 0 && y[|y| - 1] !in cs
    ensures TrimEnd(y + w, cs) == y
    decreases |w|
  {
    if |w| > 0 {
      assert (y + w)[..|y + w| - 1] == y + w[..|w| - 1];
      TrimEndPadded(y, w[..|w| - 1], cs);
    } else {
      assert y + w == y;
    }
  }

  /** Text whose ends are not in `cs` is left as it is by `Trim`. */
  lemma TrimUnchanged(x: string, cs: set<char>)
    requires |x| > 0 && x[0] !in cs && x[|x| - 1] !in cs
    ensures Trim(x, cs) == x
  {
  }

  /** Trimming a piece whose two ends are not in `cs` from padding made of
      characters in `cs` gives back the piece. */
  lemma TrimPadded(w1: string, x: string, w2: string, cs: set<char>)
    requires AllIn(w1, cs) && AllIn(w2, cs)
    requires |x| > 0 && x[0] !in cs && x[|x| - 1] !in cs
    ensures Trim(w1 + x + w2, cs) == x
  {
    assert w1 + x + w2 == w1 + (x + w2);
    TrimStartPadded(w1, x + w2, cs);
    TrimEndPadded(x, w2, cs);
  }

  predicate IsDigit(c: char) { '0' <= c <= '9' }

  predicate IsHexDigit(c: char) { IsDigit(c) || 'a' <= c <= 'f' || 'A' <= c <= 'F' }

  function DigitValue(c: char): (d: nat)
    requires IsHexDigit(c)
    ensures d < 16 && (IsDigit(c) ==> d < 10)
  {
    if IsDigit(c) then c as int - '0' as int
    else if 'a' <= c <= 'f' then c as int - 'a' as int + 10
    else c as int - 'A' as int + 10
  }

  predicate AllDigits(s: string) { forall k :: 0 <= k < |s| ==> IsDigit(s[k]) }

  predicate AllHexDigits(s: string) { forall k :: 0 <= k < |s| ==> IsHexDigit(s[k]) }

  /** The number a string of decimal digits denotes (leading zeros allowed). */
  function DecValue(s: string): nat
    requires AllDigits(s)
  {
    if |s| == 0 then 0 else DecValue(s[..|s| - 1]) * 10 + DigitValue(s[|s| - 1])
  }

  /** The number a string of hexadecimal digits denotes, either case. */
  function HexValue(s: string): nat
    requires AllHexDigits(s)
  {
    if |s| == 0 then 0 else HexValue(s[..|s| - 1]) * 16 + DigitValue(s[|s| - 1])
  }

  /** `Int32.TryParse(s)` / `Int32.Parse(s)` with `NumberStyles.Integer`:
      optional white space, an optional `+` or `-`, at least one decimal
      digit, optional white space; None where .NET reports a format error or
      an overflow. */
  function ParseInt32(s: string): (r: Option<int>)
    ensures r.Some? ==> IsInt32(r.value)
  {
    match SignedDecimal(Trim(s, NUMBER_WHITE))
    case Some(v) => if IsInt32(v) then Some(v) else None
    case None => None
  }

  /** The value of an optional `+` or `-` followed by decimal digits. */
  function SignedDecimal(t: string): Option<int> {
    var digits := if |t| > 0 && (t[0] == '-' || t[0] == '+') then t[1..] else t;
    if |digits| == 0 || !AllDigits(digits) then None
    else if t[0] == '-' then Some(0 - DecValue(digits))
    else Some(DecValue(digits))
  }

  /** `Int32.Parse(s, NumberStyles.HexNumber)`: optional white space around
      hexadecimal digits, no sign and no `0x` prefix; a pattern of up to 32
      bits is read as two's complement, a wider one overflows. */
  function ParseHex32(s: string): (r: Option<int>)
    ensures r.Some? ==> IsInt32(r.value)
  {
    var t := Trim(s, NUMBER_WHITE);
    if |t| == 0 || !AllHexDigits(t) then None
    else if HexValue(t) < TWO_32 then Some(Wrap32(HexValue(t)))
    else None
  }

  /** `Int64.Parse(s, NumberStyles.HexNumber)`: as ParseHex32, 64 bits wide. */
  function ParseHex64(s: string): (r: Option<int>)
    ensures r.Some? ==> IsInt64(r.value)
  {
    var t := Trim(s, NUMBER_WHITE);
    if |t| == 0 || !AllHexDigits(t) then None
    else if HexValue(t) < TWO_64 then Some(Wrap64(HexValue(t)))
    else None
  }

  /** `Convert.ToInt32(s, 16)`: an optional `+`, an optional `0x` or `0X`,
      then hexadecimal digits and nothing else (no white space); a `-`, an
      empty string or more than 32 bits raise an exception, here None. */
  function ConvertHex32(s: string): (r: Option<int>)
    ensures r.Some? ==> IsInt32(r.value)
  {
    var a := if |s| > 0 && s[0] == '+' then s[1..] else s;
    var b := if |a| >= 2 && a[0] == '0' && (a[1] == 'x' || a[1] == 'X') then a[2..] else a;
    if |b| == 0 || !AllHexDigits(b) then None
    else if HexValue(b) < TWO_32 then Some(Wrap32(HexValue(b)))
    else None
  }

  function DigitChar(d: nat): (c: char)
    requires d < 10
    ensures IsDigit(c) && DigitValue(c) == d
  {
    ('0' as int + d) as char
  }

  /** The decimal digits of `n`, without leading zeros. */
  function NatText(n: nat): (s: string)
    ensures |s| > 0 && AllDigits(s)
    ensures DecValue(s) == n
    ensures (s[0] == '0') == (n == 0)
  {
    if n < 10 then [DigitChar(n)]
    else
      var p := NatText(n / 10);
      var s := p + [DigitChar(n % 10)];
      assert s[..|s| - 1] == p;
      s
  }

  /** `Int32.ToString()`: a `-` for negative values, then the digits. */
  function IntText(n: int): (s: string)
    ensures |s| > 0
  {
    if n < 0 then "-" + NatText(-n) else NatText(n)
  }

  /** Printing an `int` and parsing the text back gives the same `int`. */
  lemma ParseIntText(n: int)
    requires IsInt32(n)
    ensures ParseInt32(IntText(n)) == Some(n)
  {
    if n < 0 {
      var m: nat := -n;
      var s := IntText(n);
      assert s == "-" + NatText(m);
      TrimNegativeText(m);
      SignedNegativeText(m);
      assert Trim(s, NUMBER_WHITE) == s;
      assert SignedDecimal(s) == Some(n);
    } else {
      TrimNatText(n);
      SignedNatText(n);
    }
  }

  lemma TrimNatText(m: nat)
    ensures Trim(NatText(m), NUMBER_WHITE) == NatText(m)
  {
    var s := NatText(m);
    NotWhite(s[0]);
    NotWhite(s[|s| - 1]);
    TrimPadded("", s, "", NUMBER_WHITE);
    assert "" + s + "" == s;
  }

  lemma TrimNegativeText(m: nat)
    ensures Trim("-" + NatText(m), NUMBER_WHITE) == "-" + NatText(m)
  {
    var d := NatText(m);
    var s := "-" + d;
    assert s[|s| - 1] == d[|d| - 1];
    NotWhite(s[0]);
    NotWhite(s[|s| - 1]);
    TrimPadded("", s, "", NUMBER_WHITE);
    assert "" + s + "" == s;
  }

  lemma SignedNatText(m: nat)
    ensures SignedDecimal(NatText(m)) == Some(m)
  {
    assert IsDigit(NatText(m)[0]);
  }

  lemma SignedNegativeText(m: nat)
    ensures SignedDecimal("-" + NatText(m)) == Some(0 - m)
  {
    var d := NatText(m);
    assert ("-" + d)[1..] == d;
  }

  lemma NotWhite(c: char)
    requires IsDigit(c) || c == '-'
    ensures c !in NUMBER_WHITE
  {
  }

  /** The upper-case hexadecimal digits of `n`, without leading zeros. */
  function HexText(n: nat): (s: string)
    ensures |s| > 0 && AllHexDigits(s)
    ensures HexValue(s) == n
  {
    var d := n % 16;
    var c := if d < 10 then DigitChar(d) else ('A' as int + d - 10) as char;
    assert DigitValue(c) == d;
    if n < 16 then [c]
    else
      var p := HexText(n / 16);
      var s := p + [c];
      assert s[..|s| - 1] == p;
      s
  }

  /** `s` split at `sep`, empty pieces dropped
      (`Split(sep, StringSplitOptions.RemoveEmptyEntries)`). */
  function SplitNonEmpty(s: string, sep: char): (pieces: seq<string>)
    ensures forall k :: 0 <= k < |pieces| ==> |pieces[k]| > 0 && sep !in pieces[k]
    decreases |s|
  {
    if |s| == 0 then []
    else if s[0] == sep then SplitNonEmpty(s[1..], sep)
    else
      var rest := SplitNonEmpty(s[1..], sep);
      if |s| > 1 && s[1] != sep && |rest| > 0 then [[s[0]] + rest[0]] + rest[1..]
      else [[s[0]]] + rest
  }

  /** A text that starts with a character other than `sep` has a first
      piece. */
  lemma SplitStartsPiece(t: string, sep: char)
    requires |t| > 0 && t[0] != sep
    ensures |SplitNonEmpty(t, sep)| > 0
  {
  }

  /** Splitting a text that starts with `sep`. */
  lemma SplitSkip(t: string, sep: char)
    ensures SplitNonEmpty([sep] + t, sep) == SplitNonEmpty(t, sep)
  {
    assert ([sep] + t)[1..] == t;
  }

  /** Splitting a text that starts with some other character `c`: `c` joins
      the first piece of the rest when the rest starts with a piece, and is a
      piece of its own otherwise. */
  lemma SplitCons(c: char, t: string, sep: char)
    requires c != sep
    ensures SplitNonEmpty([c] + t, sep) ==
      if |t| > 0 && t[0] != sep
      then [[c] + SplitNonEmpty(t, sep)[0]] + SplitNonEmpty(t, sep)[1..]
      else [[c]] + SplitNonEmpty(t, sep)
  {
    if |t| > 0 && t[0] != sep {
      SplitConsJoin(c, t, sep);
    } else {
      SplitConsAlone(c, t, sep);
    }
  }

  lemma SplitConsJoin(c: char, t: string, sep: char)
    requires c != sep && |t| > 0 && t[0] != sep
    ensures |SplitNonEmpty(t, sep)| > 0
    ensures SplitNonEmpty([c] + t, sep) == [[c] + SplitNonEmpty(t, sep)[0]] + SplitNonEmpty(t, sep)[1..]
  {
    var s := [c] + t;
    assert s[0] == c && s[1..] == t;
    SplitStartsPiece(t, sep);
    assert s[1] == t[0];
  }

  lemma SplitConsAlone(c: char, t: string, sep: char)
    requires c != sep && (|t| == 0 || t[0] == sep)
    ensures SplitNonEmpty([c] + t, sep) == [[c]] + SplitNonEmpty(t, sep)
  {
    var s := [c] + t;
    assert s[0] == c && s[1..] == t;
  }

  /** A non-empty text without `sep` is a single piece. */
  lemma {:induction false} SplitSingle(x: string, sep: char)
    requires |x| > 0 && sep !in x
    ensures SplitNonEmpty(x, sep) == [x]
    decreases |x|
  {
    var t := x[1..];
    assert x == [x[0]] + t;
    SplitCons(x[0], t, sep);
    if |t| > 0 {
      assert sep !in t by {
        forall k | 0 <= k < |t| ensures t[k] != sep {
          assert t[k] == x[k + 1];
        }
      }
      SplitSingle(t, sep);
      assert t[0] == x[1] && t[0] != sep;
      assert [[x[0]] + SplitNonEmpty(t, sep)[0]] + SplitNonEmpty(t, sep)[1..] == [x];
    } else {
      assert SplitNonEmpty(t, sep) == [] && x == [x[0]];
    }
  }

  /** Splitting at one `sep` and then splitting each side gives the same
      pieces, in the same order, as splitting the whole text: with
      `SplitSingle` this pins down every split as the text's maximal runs
      without `sep`, in order. */
  lemma {:induction false} SplitConcat(a: string, b: string, sep: char)
    ensures SplitNonEmpty(a + [sep] + b, sep) == SplitNonEmpty(a, sep) + SplitNonEmpty(b, sep)
    decreases |a|
  {
    if |a| == 0 {
      assert a + [sep] + b == [sep] + b;
      SplitSkip(b, sep);
    } else {
      var c, a' := a[0], a[1..];
      assert a == [c] + a';
      assert a + [sep] + b == [c] + (a' + [sep] + b);
      SplitConcat(a', b, sep);
      if c == sep {
        SplitSkip(a' + [sep] + b, sep);
        SplitSkip(a', sep);
      } else {
        ConsConcat(c, a', b, sep);
      }
    }
  }

  /** The step of `SplitConcat` for a first character other than `sep`. */
  lemma ConsConcat(c: char, a': string, b: string, sep: char)
    requires c != sep
    requires SplitNonEmpty(a' + [sep] + b, sep) == SplitNonEmpty(a', sep) + SplitNonEmpty(b, sep)
    ensures SplitNonEmpty([c] + (a' + [sep] + b), sep) == SplitNonEmpty([c] + a', sep) + SplitNonEmpty(b, sep)
  {
    var t := a' + [sep] + b;
    if |a'| > 0 && a'[0] != sep {
      assert t[0] == a'[0];
      JoinedConcat(c, t, a', SplitNonEmpty(b, sep), sep);
    } else {
      assert t[0] == sep;
      AloneConcat(c, t, a', SplitNonEmpty(b, sep), sep);
    }
  }

  lemma JoinedConcat(c: char, t: string, a': string, pb: seq<string>, sep: char)
    requires c != sep && |t| > 0 && t[0] != sep && |a'| > 0 && a'[0] != sep
    requires SplitNonEmpty(t, sep) == SplitNonEmpty(a', sep) + pb
    ensures SplitNonEmpty([c] + t, sep) == SplitNonEmpty([c] + a', sep) + pb
  {
    var pa := SplitNonEmpty(a', sep);
    var whole := SplitNonEmpty([c] + t, sep);
    var left := SplitNonEmpty([c] + a', sep);
    SplitConsJoin(c, t, sep);
    SplitConsJoin(c, a', sep);
    MergeFirst([c], pa, pb, whole, left);
  }

  /** Prefixing the first piece commutes with appending further pieces. */
  lemma MergeFirst(p: string, pa: seq<string>, pb: seq<string>, whole: seq<string>, left: seq<string>)
    requires |pa| > 0
    requires whole == [p + (pa + pb)[0]] + (pa + pb)[1..]
    requires left == [p + pa[0]] + pa[1..]
    ensures whole == left + pb
  {
    assert (pa + pb)[0] == pa[0];
    assert (pa + pb)[1..] == pa[1..] + pb;
  }

  lemma AloneConcat(c: char, t: string, a': string, pb: seq<string>, sep: char)
    requires c != sep && |t| > 0 && t[0] == sep && (|a'| == 0 || a'[0] == sep)
    requires SplitNonEmpty(t, sep) == SplitNonEmpty(a', sep) + pb
    ensures SplitNonEmpty([c] + t, sep) == SplitNonEmpty([c] + a', sep) + pb
  {
    var pa := SplitNonEmpty(a', sep);
    var whole := SplitNonEmpty([c] + t, sep);
    var left := SplitNonEmpty([c] + a', sep);
    SplitConsAlone(c, t, sep);
    SplitConsAlone(c, a', sep);
    PrependPiece([c], pa, pb, whole, left);
  }

  /** A piece put in front commutes with appending further pieces. */
  lemma PrependPiece(p: string, pa: seq<string>, pb: seq<string>, whole: seq<string>, left: seq<string>)
    requires whole == [p] + (pa + pb)
    requires left == [p] + pa
    ensures whole == left + pb
  {
  }

  /** `Convert.ToInt32(s, 16)` reads a `0x`- or `0X`-prefixed hexadecimal
      text back as its two's complement value. */
  lemma ConvertHexText(prefix: string, v: nat)
    requires prefix == "0x" || prefix == "0X"
    requires v < TWO_32
    ensures ConvertHex32(prefix + HexText(v)) == Some(Wrap32(v))
  {
    var s := prefix + HexText(v);
    assert s[0] == '0' && s[2..] == HexText(v);
  }

  /** The decimal and the `HexNumber` parses both reject a `0x` prefix. */
  lemma PrefixRejected(prefix: string, h: string)
    requires prefix == "0x" || prefix == "0X"
    requires |h| > 0 && AllHexDigits(h)
    ensures ParseInt32(prefix + h) == None
    ensures ParseHex32(prefix + h) == None && ParseHex64(prefix + h) == None
  {
    var s := prefix + h;
    assert s[|s| - 1] == h[|h| - 1];
    assert s[0] == '0';
    TrimUnchanged(s, NUMBER_WHITE);
    assert !IsHexDigit(s[1]);
  }

  /** A text made only of separators splits into no pieces. */
  lemma {:induction false} SplitOnlySeparators(s: string, sep: char)
    requires AllIn(s, {sep})
    ensures SplitNonEmpty(s, sep) == []
    decreases |s|
  {
    if |s| > 0 {
      assert AllIn(s[1..], {sep}) by {
        forall k | 0 <= k < |s[1..]| ensures s[1..][k] in {sep} {
          assert s[1..][k] == s[k + 1];
        }
      }
      SplitOnlySeparators(s[1..], sep);
    }
  }
}
