/** The band lookup tables of `AtHost` (`GetBandLte`, `GetBandUMTS`,
    `GetBandwidthFrequency` and the resource-block table of
    `ConvertRsrpToRssi`) and the channel-text normalisation the two band
    lookups share. */
module Bands {
  import opened Wrappers
  import opened MachineInt
  import opened NumberText

  /** A band label: `B<number>`, or `--` for a channel no table entry claims. */
  datatype Band = Band(number: nat) | Unallocated {

    /** The label as the source writes it. */
    function Text(): (s: string)
      ensures |s| >= 2 && s[0] in {'B', '-'} && (IsDigit(s[|s| - 1]) || s[|s| - 1] == '-')
    {
      match this
      case Band(n) => "B" + NatText(n)
      case Unallocated => "--"
    }
  }

  /** The number of breakpoints of `GetBandLte`. */
  const LTE_ENTRIES: nat := 71

  /** The `i`-th breakpoint of `GetBandLte`, in the source's order: an upper
      bound (exclusive) and the label of the channels below it. A channel
      belongs to the first entry whose bound is strictly above it. */
  function LteBreakpoint(i: nat): (entry: (int, Band))
    requires i < LTE_ENTRIES
  {
    match i
    case 0 => (600, Band(1))
    case 1 => (1200, Band(2))
    case 2 => (1950, Band(3))
    case 3 => (2400, Band(4))
    case 4 => (2650, Band(5))
    case 5 => (2750, Band(6))
    case 6 => (3450, Band(7))
    case 7 => (3800, Band(8))
    case 8 => (4150, Band(9))
    case 9 => (4750, Band(10))
    case 10 => (4950, Band(11))
    case 11 => (5010, Unallocated)
    case 12 => (5180, Band(12))
    case 13 => (5280, Band(13))
    case 14 => (5380, Band(14))
    case 15 => (5730, Unallocated)
    case 16 => (5850, Band(17))
    case 17 => (6000, Band(18))
    case 18 => (6150, Band(19))
    case 19 => (6450, Band(20))
    case 20 => (6600, Band(21))
    case 21 => (7400, Band(22))
    case 22 => (7500, Unallocated)
    case 23 => (7700, Band(23))
    case 24 => (8040, Band(24))
    case 25 => (8690, Band(25))
    case 26 => (9040, Band(26))
    case 27 => (9210, Band(27))
    case 28 => (9660, Band(28))
    case 29 => (9770, Band(29))
    case 30 => (9870, Band(30))
    case 31 => (9920, Band(31))
    case 32 => (10400, Band(32))
    case 33 => (36000, Unallocated)
    case 34 => (36200, Band(33))
    case 35 => (36350, Band(34))
    case 36 => (36950, Band(35))
    case 37 => (37550, Band(36))
    case 38 => (37750, Band(37))
    case 39 => (38250, Band(38))
    case 40 => (38650, Band(39))
    case 41 => (39650, Band(40))
    case 42 => (41590, Band(41))
    case 43 => (43590, Band(42))
    case 44 => (45590, Band(43))
    case 45 => (46590, Band(44))
    case 46 => (46790, Band(45))
    case 47 => (54540, Band(46))
    case 48 => (55240, Band(47))
    case 49 => (56740, Band(48))
    case 50 => (58240, Band(49))
    case 51 => (59090, Band(50))
    case 52 => (59140, Band(51))
    case 53 => (60140, Band(52))
    case 54 => (60255, Band(53))
    case 55 => (65536, Unallocated)
    case 56 => (66436, Band(65))
    case 57 => (67336, Band(66))
    case 58 => (67536, Band(67))
    case 59 => (67836, Band(68))
    case 60 => (68336, Band(69))
    case 61 => (68586, Band(70))
    case 62 => (68936, Band(71))
    case 63 => (68986, Band(72))
    case 64 => (69036, Band(73))
    case 65 => (69466, Band(74))
    case 66 => (70316, Band(75))
    case 67 => (70366, Band(76))
    case 68 => (70546, Band(85))
    case 69 => (70596, Band(87))
    case 70 => (70646, Band(88))
  }

  /** The breakpoints of `GetBandLte` as a sequence. */
  const LTE_TABLE: seq<(int, Band)> := LteBreakpointsFrom(0)

  /** The breakpoints from entry `k` on. */
  function LteBreakpointsFrom(k: nat): (t: seq<(int, Band)>)
    requires k <= LTE_ENTRIES
    ensures |t| == LTE_ENTRIES - k
    ensures forall j :: 0 <= j < |t| ==> t[j] == LteBreakpoint(k + j)
    decreases LTE_ENTRIES - k
  {
    if k == LTE_ENTRIES then [] else [LteBreakpoint(k)] + LteBreakpointsFrom(k + 1)
  }

  /** Each bound is above the one before it. */
  predicate Ascending(table: seq<(int, Band)>) {
    forall i :: 0 < i < |table| ==> table[i - 1].0 < table[i].0
  }

  /** A table holding exactly the breakpoints of `GetBandLte`, ascending. */
  predicate IsLteTable(t: seq<(int, Band)>) {
    && |t| == LTE_ENTRIES
    && Ascending(t)
    && forall i :: 0 <= i < |t| ==> t[i] == LteBreakpoint(i)
  }

  lemma LteTableAscending()
    ensures IsLteTable(LTE_TABLE)
  {
    assert forall i :: 0 < i < LTE_ENTRIES ==> LteBreakpoint(i - 1).0 < LteBreakpoint(i).0;
  }

  /** Ascending between any two entries, not only neighbours. */
  lemma {:induction false} Ordered(table: seq<(int, Band)>, j: nat, i: nat)
    requires Ascending(table) && j < i < |table|
    ensures table[j].0 < table[i].0
    decreases i - j
  {
    if j + 1 < i {
      Ordered(table, j + 1, i);
    }
  }

  /** The first entry at or after `k` whose bound is strictly above `channel`. */
  function FirstAbove(table: seq<(int, Band)>, channel: int, k: nat): (r: Option<nat>)
    requires k <= |table|
    ensures r.Some? ==> k <= r.value < |table| && channel < table[r.value].0
    ensures r.Some? ==> forall j :: k <= j < r.value ==> table[j].0 <= channel
    ensures r.None? ==> forall j :: k <= j < |table| ==> table[j].0 <= channel
    decreases |table| - k
  {
    if k == |table| then None
    else if channel < table[k].0 then Some(k)
    else FirstAbove(table, channel, k + 1)
  }

  /** The label of the first entry whose bound is strictly above `channel`;
      `--` when there is none. */
  function Lookup(table: seq<(int, Band)>, channel: int): Band {
    match FirstAbove(table, channel, 0)
    case Some(i) => table[i].1
    case None => Unallocated
  }

  /** In an ascending table, a channel from the bound of entry `i - 1`
      (inclusive) up to the bound of entry `i` (exclusive) gets the label of
      entry `i`. */
  lemma Segment(table: seq<(int, Band)>, channel: int, i: nat)
    requires Ascending(table) && i < |table|
    requires i == 0 || table[i - 1].0 <= channel
    requires channel < table[i].0
    ensures FirstAbove(table, channel, 0) == Some(i)
    ensures Lookup(table, channel) == table[i].1
  {
    var r := FirstAbove(table, channel, 0);
    if r.Some? && r.value < i {
      Ordered(table, r.value, i - 1);
    }
  }

  /** `GetBandLte` on a parsed channel. */
  function LteBandOf(channel: int): Band {
    Lookup(LTE_TABLE, channel)
  }

  /** Every channel below 600, negative ones included, is in band 1. */
  lemma LteBelowFirstBound(channel: int)
    requires channel < 600
    ensures LteBandOf(channel) == Band(1)
  {
    LteTableAscending();
    Segment(LTE_TABLE, channel, 0);
  }

  /** The channels no LTE entry claims: the five gaps of the table. */
  predicate InLteGap(channel: int) {
    || 4950 <= channel < 5010
    || 5380 <= channel < 5730
    || 7400 <= channel < 7500
    || 10400 <= channel < 36000
    || 60255 <= channel < 65536
  }

  /** The five table entries labelled `--`. */
  lemma LteUnallocatedEntries(i: nat)
    requires i < LTE_ENTRIES
    ensures LteBreakpoint(i).1 == Unallocated <==> i in {11, 15, 22, 33, 55}
  {
  }

  /** The gap that ends at entry `i` of the table. */
  lemma LteGapEntry(channel: int, i: nat)
    requires i in {11, 15, 22, 33, 55}
    requires LteBreakpoint(i - 1).0 <= channel < LteBreakpoint(i).0
    ensures InLteGap(channel)
  {
    if i == 11 {} else if i == 15 {} else if i == 22 {} else if i == 33 {} else {}
  }

  /** A channel maps to `--` exactly when it lies in one of the gaps or at or
      above the last bound, 70646. */
  lemma LteUnallocated(channel: int)
    ensures LteBandOf(channel) == Unallocated <==> InLteGap(channel) || channel >= 70646
  {
    if InLteGap(channel) {
      LteGapsLabelled(channel);
    } else if channel >= 70646 {
      LteAboveLastBound(channel);
    } else if LteBandOf(channel) == Unallocated {
      LteUnallocatedInGap(channel);
    }
  }

  /** At or above 70646 no entry claims the channel. */
  lemma LteAboveLastBound(channel: int)
    requires channel >= 70646
    ensures LteBandOf(channel) == Unallocated
  {
    LteTableAscending();
    AboveLastBound(LTE_TABLE, channel);
  }

  lemma AboveLastBound(t: seq<(int, Band)>, channel: int)
    requires IsLteTable(t) && channel >= 70646
    ensures Lookup(t, channel) == Unallocated
  {
    var r := FirstAbove(t, channel, 0);
    if r.Some? {
      Ordered(t, r.value, 70);
    }
  }

  /** Below 70646 a `--` comes from one of the gap entries. */
  lemma LteUnallocatedInGap(channel: int)
    requires channel < 70646 && LteBandOf(channel) == Unallocated
    ensures InLteGap(channel)
  {
    LteTableAscending();
    UnallocatedInGap(LTE_TABLE, channel);
  }

  /** Below the last bound some entry claims the channel. */
  lemma FoundBelowLastBound(t: seq<(int, Band)>, channel: int)
    requires IsLteTable(t) && channel < 70646
    ensures FirstAbove(t, channel, 0).Some?
  {
    assert t[70].0 == 70646;
  }

  lemma UnallocatedInGap(t: seq<(int, Band)>, channel: int)
    requires IsLteTable(t) && channel < 70646 && Lookup(t, channel) == Unallocated
    ensures InLteGap(channel)
  {
    var r := FirstAbove(t, channel, 0);
    FoundBelowLastBound(t, channel);
    var i := r.value;
    LteUnallocatedEntries(i);
    assert t[i - 1].0 <= channel;
    LteGapEntry(channel, i);
  }

  /** Every channel in a gap is labelled `--`. */
  lemma LteGapsLabelled(channel: int)
    requires InLteGap(channel)
    ensures LteBandOf(channel) == Unallocated
  {
    LteTableAscending();
    GapsLabelled(LTE_TABLE, channel);
  }

  lemma GapsLabelled(t: seq<(int, Band)>, channel: int)
    requires IsLteTable(t) && InLteGap(channel)
    ensures Lookup(t, channel) == Unallocated
  {
    if 4950 <= channel < 5010 { Segment(t, channel, 11); }
    else if 5380 <= channel < 5730 { Segment(t, channel, 15); }
    else if 7400 <= channel < 7500 { Segment(t, channel, 22); }
    else if 10400 <= channel < 36000 { Segment(t, channel, 33); }
    else { Segment(t, channel, 55); }
  }

  /** `GetBandLte` gives a channel the label of the first breakpoint whose
      bound is strictly above it: from the bound of entry `i - 1` (inclusive)
      up to the bound of entry `i` (exclusive) the label is that of entry `i`. */
  lemma LteFirstBreakpoint(channel: int, i: nat)
    requires i < LTE_ENTRIES
    requires i == 0 || LteBreakpoint(i - 1).0 <= channel
    requires channel < LteBreakpoint(i).0
    ensures LteBandOf(channel) == LteBreakpoint(i).1
  {
    LteTableAscending();
    Segment(LTE_TABLE, channel, i);
  }

  /** `GetBandUMTS` on a parsed channel: five inclusive ranges, tried in the
      source's order; they do not overlap, so each label holds exactly on its
      range. */
  function UmtsBandOf(channel: int): (b: Band)
    ensures b == Band(1) <==> 10562 <= channel <= 10838
    ensures b == Band(2) <==> 9662 <= channel <= 9938
    ensures b == Band(5) <==> 1162 <= channel <= 1513
    ensures b == Band(8) <==> 1537 <= channel <= 1738
    ensures b == Band(19) <==> 412 <= channel <= 587
    ensures b == Unallocated <==> !InUmtsRange(channel)
  {
    if 10562 <= channel <= 10838 then Band(1)
    else if 9662 <= channel <= 9938 then Band(2)
    else if 1162 <= channel <= 1513 then Band(5)
    else if 1537 <= channel <= 1738 then Band(8)
    else if 412 <= channel <= 587 then Band(19)
    else Unallocated
  }

  /** The channels one of the five UMTS ranges claims. */
  predicate InUmtsRange(channel: int) {
    || 10562 <= channel <= 10838
    || 9662 <= channel <= 9938
    || 1162 <= channel <= 1513
    || 1537 <= channel <= 1738
    || 412 <= channel <= 587
  }

  /** The quote character `Trim('"')` strips. */
  const QUOTE: set<char> := {'"'}

  /** Whether `t` starts with `0x`, compared ordinal-ignoring-case. */
  predicate HasHexPrefix(t: string) {
    |t| >= 2 && t[0] == '0' && (t[1] == 'x' || t[1] == 'X')
  }

  /** The channel normalisation both band lookups share: None (the lookup
      answers `--`) for blank text or text `TryParse` rejects; otherwise the
      text, trimmed of white space and then of quotes, read as hexadecimal
      after a `0x` / `0X` prefix and as signed decimal without one. */
  function Channel(text: string): (c: Option<int>)
    ensures c.Some? ==> IsInt32(c.value)
    ensures IsBlank(text) ==> c.None?
  {
    if IsBlank(text) then None
    else
      var t := Trim(Trim(text, WHITE_SPACE), QUOTE);
      if HasHexPrefix(t) then ParseHex32(t[2..]) else ParseInt32(t)
  }

  /** `GetBandLte`. */
  function GetBandLte(text: string): Band {
    match Channel(text)
    case Some(c) => LteBandOf(c)
    case None => Unallocated
  }

  /** `GetBandUMTS`. */
  function GetBandUmts(text: string): Band {
    match Channel(text)
    case Some(c) => UmtsBandOf(c)
    case None => Unallocated
  }

  /** The characters a printed number or a hexadecimal text can start or end
      with are neither white space nor a quote. */
  lemma NumberCharNotPadding(c: char)
    requires IsHexDigit(c) || c == '-'
    ensures c !in WHITE_SPACE && c !in QUOTE
  {
  }

  /** Stripping white space and then quotes from `w1 + q1 + x + q2 + w2`
      leaves `x` when the padding is white space and quotes and `x` does not
      start or end with either. */
  lemma StripPadding(w1: string, q1: string, x: string, q2: string, w2: string)
    requires AllIn(w1, WHITE_SPACE) && AllIn(w2, WHITE_SPACE)
    requires AllIn(q1, QUOTE) && AllIn(q2, QUOTE)
    requires |x| > 0
    requires x[0] !in WHITE_SPACE && x[0] !in QUOTE
    requires x[|x| - 1] !in WHITE_SPACE && x[|x| - 1] !in QUOTE
    ensures Trim(Trim(w1 + q1 + x + q2 + w2, WHITE_SPACE), QUOTE) == x
    ensures !IsBlank(w1 + q1 + x + q2 + w2)
  {
    var y := q1 + x + q2;
    QuotedEnds(q1, x, q2);
    TrimPadded(w1, y, w2, WHITE_SPACE);
    Regroup(w1, q1, x, q2, w2);
    TrimPadded(q1, x, q2, QUOTE);
    var all := w1 + y + w2;
    assert all[|w1| + |q1|] == x[0];
    NotBlankAt(all, |w1| + |q1|);
  }

  /** A piece that neither starts nor ends with white space keeps that
      property once quotes are put around it. */
  lemma QuotedEnds(q1: string, x: string, q2: string)
    requires AllIn(q1, QUOTE) && AllIn(q2, QUOTE)
    requires |x| > 0 && x[0] !in WHITE_SPACE && x[|x| - 1] !in WHITE_SPACE
    ensures var y := q1 + x + q2;
      |y| > 0 && y[0] !in WHITE_SPACE && y[|y| - 1] !in WHITE_SPACE
  {
    var y := q1 + x + q2;
    assert '"' !in WHITE_SPACE;
    if |q1| > 0 {
      assert y[0] == q1[0] && q1[0] in QUOTE;
    } else {
      assert y[0] == x[0];
    }
    if |q2| > 0 {
      assert y[|y| - 1] == q2[|q2| - 1] && q2[|q2| - 1] in QUOTE;
    } else {
      assert y[|y| - 1] == x[|x| - 1];
    }
  }

  lemma Regroup(w1: string, q1: string, x: string, q2: string, w2: string)
    ensures w1 + q1 + x + q2 + w2 == w1 + (q1 + x + q2) + w2
  {
  }

  /** Text with one character that is not white space is not blank. */
  lemma NotBlankAt(s: string, k: nat)
    requires k < |s| && s[k] !in WHITE_SPACE
    ensures !IsBlank(s)
  {
  }

  /** Once the padding is gone, `Channel` reads what is left. */
  lemma ChannelOfStripped(all: string, x: string)
    requires !IsBlank(all) && Trim(Trim(all, WHITE_SPACE), QUOTE) == x
    ensures Channel(all) == if HasHexPrefix(x) then ParseHex32(x[2..]) else ParseInt32(x)
  {
  }

  /** The text of a printed `int`: no padding at its ends, no `0x` prefix,
      and `Int32.Parse` reads it back. */
  lemma PrintedInt(n: int)
    requires IsInt32(n)
    ensures var x := IntText(n);
      && x[0] !in WHITE_SPACE && x[0] !in QUOTE
      && x[|x| - 1] !in WHITE_SPACE && x[|x| - 1] !in QUOTE
      && !HasHexPrefix(x)
      && ParseInt32(x) == Some(n)
  {
    var x := IntText(n);
    var m: nat := if n < 0 then -n else n;
    var d := NatText(m);
    assert x == if n < 0 then "-" + d else d;
    assert x[|x| - 1] == d[|d| - 1];
    NumberCharNotPadding(x[0]);
    NumberCharNotPadding(x[|x| - 1]);
    if n >= 0 && |x| >= 2 {
      assert x[0] != '0';
    }
    ParseIntText(n);
  }

  /** Text that does not start or end with white space or a quote is left
      as it is by the stripping. */
  lemma Unpadded(x: string)
    requires |x| > 0
    requires x[0] !in WHITE_SPACE && x[0] !in QUOTE
    requires x[|x| - 1] !in WHITE_SPACE && x[|x| - 1] !in QUOTE
    ensures Trim(Trim(x, WHITE_SPACE), QUOTE) == x
    ensures !IsBlank(x)
  {
    TrimUnchanged(x, WHITE_SPACE);
    TrimUnchanged(x, QUOTE);
  }

  /** A decimal channel, however padded with white space and quotes, reads
      back as itself. */
  lemma ChannelDecimal(w1: string, q1: string, n: int, q2: string, w2: string)
    requires AllIn(w1, WHITE_SPACE) && AllIn(w2, WHITE_SPACE)
    requires AllIn(q1, QUOTE) && AllIn(q2, QUOTE)
    requires IsInt32(n)
    ensures Channel(w1 + q1 + IntText(n) + q2 + w2) == Some(n)
  {
    var x := IntText(n);
    PrintedInt(n);
    StripPadding(w1, q1, x, q2, w2);
    ChannelOfStripped(w1 + q1 + x + q2 + w2, x);
  }

  /** A `0x`- or `0X`-prefixed hexadecimal channel of up to 32 bits, however
      padded, reads back as its two's complement value. */
  lemma ChannelHex(w1: string, q1: string, prefix: string, v: nat, q2: string, w2: string)
    requires AllIn(w1, WHITE_SPACE) && AllIn(w2, WHITE_SPACE)
    requires AllIn(q1, QUOTE) && AllIn(q2, QUOTE)
    requires prefix == "0x" || prefix == "0X"
    requires v < TWO_32
    ensures Channel(w1 + q1 + (prefix + HexText(v)) + q2 + w2) == Some(Wrap32(v))
  {
    var h := HexText(v);
    var x := prefix + h;
    PrefixedHex(prefix, v);
    StripPadding(w1, q1, x, q2, w2);
    ChannelOfStripped(w1 + q1 + x + q2 + w2, x);
  }

  /** A `0x`-prefixed hexadecimal text: no padding at its ends, and the hex
      parse of what follows the prefix is the two's complement value. */
  lemma PrefixedHex(prefix: string, v: nat)
    requires prefix == "0x" || prefix == "0X"
    requires v < TWO_32
    ensures var x := prefix + HexText(v);
      && x[0] !in WHITE_SPACE && x[0] !in QUOTE
      && x[|x| - 1] !in WHITE_SPACE && x[|x| - 1] !in QUOTE
      && HasHexPrefix(x)
      && ParseHex32(x[2..]) == Some(Wrap32(v))
  {
    var h := HexText(v);
    var x := prefix + h;
    assert x[0] == '0';
    assert x[|x| - 1] == h[|h| - 1];
    NumberCharNotPadding(x[0]);
    NumberCharNotPadding(h[|h| - 1]);
    assert x[2..] == h;
    TrimUnchanged(h, NUMBER_WHITE);
  }

  /** An `int` printed by `Int32.ToString()` reads back as itself. */
  lemma ChannelOfInt(n: int)
    requires IsInt32(n)
    ensures Channel(IntText(n)) == Some(n)
  {
    PrintedInt(n);
    Unpadded(IntText(n));
    ChannelOfStripped(IntText(n), IntText(n));
  }

  /** `GetBandLte` of an `int` printed the way `XMCIDecoder` prints it is the
      band of that `int`. */
  lemma GetBandLteOfInt(n: int)
    requires IsInt32(n)
    ensures GetBandLte(IntText(n)) == LteBandOf(n)
  {
    ChannelOfInt(n);
  }

  /** `GetBandUMTS` of a printed `int` is the band of that `int`. */
  lemma GetBandUmtsOfInt(n: int)
    requires IsInt32(n)
    ensures GetBandUmts(IntText(n)) == UmtsBandOf(n)
  {
    ChannelOfInt(n);
  }

  /** `GetBandwidthFrequency`, in tenths of a MHz: codes 0 to 5 are 1.4, 3, 5,
      10, 15 and 20 MHz; any other code is 0. */
  function BandwidthTenths(code: int): (t: nat)
    ensures 0 <= code <= 5 <==> t > 0
  {
    match code
    case 0 => 14
    case 1 => 30
    case 2 => 50
    case 3 => 100
    case 4 => 150
    case 5 => 200
    case _ => 0
  }

  /** The bandwidth as the summary prints it (the default `double` format). */
  function MHzText(code: int): (s: string)
    ensures |s| > 0
  {
    TenthsText(BandwidthTenths(code))
  }

  /** A number of tenths printed as a decimal, without a trailing `.0`. */
  function TenthsText(t: nat): (s: string)
    ensures |s| > 0
  {
    if t % 10 == 0 then NatText(t / 10) else NatText(t / 10) + "." + NatText(t % 10)
  }

  /** The resource blocks `ConvertRsrpToRssi` assigns a bandwidth code:
      6, 15, 25, 50, 75 and 100 for codes 0 to 5, 0 otherwise. */
  function ResourceBlocks(code: int): (np: nat)
    ensures 0 <= code <= 5 <==> np > 0
  {
    match code
    case 0 => 6
    case 1 => 15
    case 2 => 25
    case 3 => 50
    case 4 => 75
    case 5 => 100
    case _ => 0
  }

  /** The two tables agree: each 180 kHz resource block of the 15 kHz grid
      takes up to a twentieth of the bandwidth, so the bandwidth in tenths of
      a MHz is twice the resource blocks for 3 MHz and up, and 1.4 MHz
      carries 6 blocks. */
  lemma BandwidthBlocks(code: int)
    ensures 1 <= code <= 5 ==> BandwidthTenths(code) == 2 * ResourceBlocks(code)
    ensures code == 0 ==> BandwidthTenths(code) == 14 && ResourceBlocks(code) == 6
    ensures BandwidthTenths(code) == 0 <==> ResourceBlocks(code) == 0
  {
  }

  /** The printed bandwidths. */
  lemma MHzTexts()
    ensures MHzText(0) == "1.4" && MHzText(1) == "3" && MHzText(2) == "5"
    ensures MHzText(3) == "10" && MHzText(4) == "15" && MHzText(5) == "20"
  {
    NarrowTexts();
    WideTexts();
  }

  /** The bandwidths below 10 MHz. */
  lemma NarrowTexts()
    ensures MHzText(0) == "1.4" && MHzText(1) == "3" && MHzText(2) == "5"
  {
    assert TenthsText(14) == "1.4" && TenthsText(30) == "3" && TenthsText(50) == "5";
  }

  /** The bandwidths of 10 MHz and more. */
  lemma WideTexts()
    ensures MHzText(3) == "10" && MHzText(4) == "15" && MHzText(5) == "20"
  {
    WholeMHzText(3, 10);
    WholeMHzText(4, 15);
    WholeMHzText(5, 20);
  }

  /** A code of a whole number of MHz prints as that number. */
  lemma WholeMHzText(code: int, mhz: nat)
    requires BandwidthTenths(code) == 10 * mhz
    ensures MHzText(code) == NatText(mhz)
  {
  }

  /** A code outside 0 to 5 prints as `0`. */
  lemma MHzTextUnknown(code: int)
    requires !(0 <= code <= 5)
    ensures MHzText(code) == "0"
  {
  }
}
