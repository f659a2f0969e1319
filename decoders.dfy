/** What each decoder of `AtHost` does to the `Data` snapshot, as pure
    functions from the old field values and the reply's regex groups to the
    new field values. A decoder that throws leaves the fields it had already
    written; `Outcome.failure` names the exception. */
module Decoders {
  import opened Wrappers
  import opened MachineInt
  import opened NumberText
  import opened Bands
  import opened Snapshot

  /** The exceptions the decoders raise. */
  datatype Failure =
    | NoSim              // `CheckSIM`: the `+CPIN` pattern did not match
    | CopsUnmatched      // `DecoderCOPS`: the `+COPS` pattern did not match
    | CsqUnmatched       // `DecoderCSQ`: the `+CSQ` pattern did not match
    | ParseError         // `int.Parse`, `long.Parse` or `Convert.ToInt32` rejected its text
    | UnknownNetworkType // the radio access technology gate of `SendCommand`
    | XmciUnmatched      // `GetXMCILines`: no `+XMCI` record matched
    | NotImplemented     // `GetXMCILines`: a technology other than 3 or 4
    | IndexOutOfRange    // `bwcodes[0]` on an empty bandwidth list

  /** The snapshot after a decoder ran, and the exception it raised if any. */
  datatype Outcome = Outcome(fields: Fields, failure: Option<Failure>)

  /** One regex match: whether it succeeded and the groups that did, by name
      (`match.Groups[name].Success` and `.Value`). */
  datatype Match = Match(success: bool, groups: map<string, string>)

  /** `match.Groups[name].Value`: the empty string for a group that did not
      take part in the match. */
  function GroupValue(m: Match, name: string): string {
    if name in m.groups then m.groups[name] else ""
  }

  // ---------------------------------------------------------------- COPS

  /** The groups of a `+COPS` match: the quoted operator and the type code. */
  datatype CopsMatch = CopsMatch(operator: string, networkType: string)

  /** The label `DecoderCOPS` gives a registration type code. */
  function NetworkStatus(code: string): (status: string)
    ensures status == "EDGE" <==> code == "0"
    ensures status == "UMTS" <==> code == "2"
    ensures status == "LTE" <==> code == "3" || code == "7"
    ensures status == "HSDPA" <==> code == "4"
    ensures status == "HSUPA" <==> code == "5"
    ensures status == "HSPA" <==> code == "6"
    ensures status == "Unknown" <==> code !in {"0", "2", "3", "4", "5", "6", "7"}
  {
    if code == "0" then "EDGE"
    else if code == "2" then "UMTS"
    else if code == "3" || code == "7" then "LTE"
    else if code == "4" then "HSDPA"
    else if code == "5" then "HSUPA"
    else if code == "6" then "HSPA"
    else "Unknown"
  }

  /** `DecoderCOPS`: the operator and the network label, or an exception
      when the pattern did not match. */
  function CopsUpdate(f: Fields, m: Option<CopsMatch>): Outcome {
    match m
    case Some(c) => Outcome(f.(operator := c.operator, statusNetwork := NetworkStatus(c.networkType)), None)
    case None => Outcome(f, Some(CopsUnmatched))
  }

  /** `DecoderCOPS` throws exactly when the pattern did not match, and then
      changes nothing; otherwise it changes only `Operator`, to the quoted
      group, and `StatusNetwork`, to the label of the type code. */
  lemma CopsEffect(f: Fields, m: Option<CopsMatch>)
    ensures var o := CopsUpdate(f, m);
      && (o.failure.Some? <==> m.None?)
      && (m.None? ==> o.fields == f)
      && o.fields.(operator := f.operator, statusNetwork := f.statusNetwork) == f
      && (m.Some? ==> o.fields.operator == m.value.operator
                      && o.fields.statusNetwork == NetworkStatus(m.value.networkType))
  {
  }

  // ---------------------------------------------------------------- CSQ

  /** `int.Parse(sg) * 100 / 31` in 32-bit arithmetic: the product wraps
      around and the division truncates toward zero. */
  function SignalPercent(sg: int): (p: int)
    requires IsInt32(sg)
    ensures IsInt32(p)
    ensures 0 <= sg <= 31 ==> 0 <= p <= 100
    ensures sg == 31 ==> p == 100
    ensures 0 <= sg <= 21474836 ==> 31 * p <= 100 * sg < 31 * p + 31
  {
    Quot(Wrap32(sg * 100), 31)
  }

  /** Over the range where the product does not wrap, the percentage never
      decreases as the signal grows. */
  lemma SignalPercentMonotone(a: int, b: int)
    requires 0 <= a <= b <= 21474836
    ensures SignalPercent(a) <= SignalPercent(b)
  {
  }

  /** Past 21474836 the product wraps around and the percentage turns
      negative. */
  lemma SignalPercentWraps()
    ensures SignalPercent(21474837) < 0
  {
    assert Wrap32(21474837 * 100) == 2147483700 - TWO_32;
  }

  /** `DecoderCSQ`: the percentage followed by ` %`, an exception when the
      pattern did not match or `int.Parse` rejects the group. */
  function CsqUpdate(f: Fields, sg: Option<string>): Outcome {
    match sg
    case None => Outcome(f, Some(CsqUnmatched))
    case Some(text) =>
      match ParseInt32(text)
      case None => Outcome(f, Some(ParseError))
      case Some(v) => Outcome(f.(signalStrength := IntText(SignalPercent(v)) + " %"), None)
  }

  /** `DecoderCSQ` succeeds exactly when the pattern matched and its group
      is an `int`; it changes `SignalStrength` only, to the percentage of
      that `int` followed by ` %`, and on an exception changes nothing. */
  lemma CsqEffect(f: Fields, sg: Option<string>)
    ensures var o := CsqUpdate(f, sg);
      && (o.failure.None? <==> sg.Some? && ParseInt32(sg.value).Some?)
      && (sg.None? ==> o.failure == Some(CsqUnmatched))
      && (o.failure.Some? ==> o.fields == f)
      && o.fields.(signalStrength := f.signalStrength) == f
      && (o.failure.None? ==> o.fields.signalStrength == IntText(SignalPercent(ParseInt32(sg.value).value)) + " %")
  {
  }

  /** The signal quality as the `+CSQ` pattern shapes it, a run of digits
      from 0 to 31, shows as a percentage from 0 to 100. */
  lemma CsqDigits(f: Fields, sg: nat)
    requires sg <= 31
    ensures var o := CsqUpdate(f, Some(NatText(sg)));
      && o.failure.None?
      && exists p :: 0 <= p <= 100 && o.fields.signalStrength == NatText(p) + " %"
  {
    NonNegativeText(sg);
    ParseIntText(sg);
    var p := SignalPercent(sg);
    NonNegativeText(p);
    assert CsqUpdate(f, Some(NatText(sg))).fields.signalStrength == NatText(p) + " %";
  }

  // ------------------------------------------------------------- Distance

  /** `n / d` rounded to the nearest integer, ties to the even one
      (`Math.Round`'s default). */
  function RoundHalfEven(n: int, d: int): (q: int)
    requires d > 0
    ensures -d <= 2 * (n - q * d) <= d
    ensures 2 * (n - q * d) == d || 2 * (n - q * d) == -d ==> q % 2 == 0
  {
    var q0, r := n / d, n % d;
    NextMultiple(n, d);
    if 2 * r < d then q0
    else if 2 * r > d then q0 + 1
    else if q0 % 2 == 0 then q0
    else q0 + 1
  }

  /** The remainder of `n / d` and its distance to the next multiple. */
  lemma NextMultiple(n: int, d: int)
    requires d > 0
    ensures n - (n / d) * d == n % d && 0 <= n % d < d
    ensures n - (n / d + 1) * d == n % d - d
  {
  }

  /** `Math.Round(ta * 78.125 / 1000, 3)` in thousandths of a km (metres):
      78.125 m per timing-advance step, to the nearest metre, ties to even.
      `ta * 78.125 / 1000` is `ta * 5 / 64`, exact in binary, so the double
      computation rounds the exact value. */
  function DistanceMetres(ta: nat): (m: nat)
    ensures -4 <= 8 * m - 625 * ta <= 4
  {
    RoundHalfEven(ta * 625, 8)
  }

  /** Up to three decimals of a fraction of a km, trailing zeros dropped. */
  function Decimals(f: nat): (s: string)
    requires 0 < f < 1000
    ensures 1 <= |s| <= 3 && AllDigits(s) && s[|s| - 1] != '0'
  {
    var d1, d2, d3 := f / 100, f / 10 % 10, f % 10;
    if d3 != 0 then [DigitChar(d1), DigitChar(d2), DigitChar(d3)]
    else if d2 != 0 then [DigitChar(d1), DigitChar(d2)]
    else [DigitChar(d1)]
  }

  /** A whole number of metres printed in km as the default `double`
      format prints it: no trailing zeros and no point for whole km. */
  function KmText(m: nat): string {
    if m % 1000 == 0 then NatText(m / 1000) else NatText(m / 1000) + "." + Decimals(m % 1000)
  }

  /** The `Distance` text for a timing advance. */
  function DistanceText(ta: nat): string {
    KmText(DistanceMetres(ta)) + " km"
  }

  /** One step is 78.125 m, printed `0.078 km`; a half metre is rounded to
      the even neighbour (312.5 m to `0.312`, 937.5 m to `0.938`); ten steps
      are `0.781 km` and 128 steps exactly `10 km`. */
  lemma DistanceTexts()
    ensures DistanceText(1) == "0.078 km"
    ensures DistanceText(4) == "0.312 km"
    ensures DistanceText(12) == "0.938 km"
    ensures DistanceText(10) == "0.781 km"
    ensures DistanceText(128) == "10 km"
  {
    OneStepText();
    TieDownText();
    TieUpText();
    TenStepsText();
    WholeKmText();
  }

  lemma OneStepText()
    ensures DistanceText(1) == "0.078 km"
  {
    assert DistanceMetres(1) == 78;
    assert Decimals(78) == "078";
  }

  /** 312.5 m: the tie goes down to the even 312. */
  lemma TieDownText()
    ensures DistanceText(4) == "0.312 km"
  {
    assert DistanceMetres(4) == 312;
    assert Decimals(312) == "312";
  }

  /** 937.5 m: the tie goes up to the even 938. */
  lemma TieUpText()
    ensures DistanceText(12) == "0.938 km"
  {
    assert DistanceMetres(12) == 938;
    assert Decimals(938) == "938";
  }

  lemma TenStepsText()
    ensures DistanceText(10) == "0.781 km"
  {
    assert DistanceMetres(10) == 781;
    assert Decimals(781) == "781";
  }

  lemma WholeKmText()
    ensures DistanceText(128) == "10 km"
  {
    assert DistanceMetres(128) == 10000;
  }

  // ------------------------------------------------------------ DecoderXS

  /** The `RSSI` text: `ConvertRsrpToRssi` adds `10 log10(12 np)` to RSRP for
      a known bandwidth, which `rssiText` carries already printed, and falls
      back to -113 dBm when the bandwidth code has no resource-block count. */
  function RssiText(bwcode: int, rssiText: string): string {
    if ResourceBlocks(bwcode) > 0 then rssiText + " dBm" else "-113 dBm"
  }

  /** `DecoderXS`: the serving cell's figures from the first `+XMCI`
      record. Every number is parsed before any field is written, so an
      exception leaves the fields as they were. */
  function XsUpdate(f: Fields, bwcode: int, ta: int, rat: int, line: Match, rssiText: string): Outcome {
    if rat == 4 then XsLteUpdate(f, bwcode, ta, line, rssiText)
    else if rat == 3 then XsUmtsUpdate(f, ta, line)
    else Outcome(WithDistance(f, ta), None)
  }

  /** The LTE branch: EARFCN through `Convert.ToInt32(..., 16)`, the others
      through `int.Parse`. */
  function XsLteUpdate(f: Fields, bwcode: int, ta: int, line: Match, rssiText: string): Outcome {
    XsLteParsed(f, bwcode, ta, rssiText,
                ConvertHex32(GroupValue(line, "EARFCN")), ParseInt32(GroupValue(line, "RSRP")),
                ParseInt32(GroupValue(line, "RSRQ")), ParseInt32(GroupValue(line, "SINR")))
  }

  /** The LTE branch from its four parse results. */
  function XsLteParsed(f: Fields, bwcode: int, ta: int, rssiText: string,
                       earf: Option<int>, rsrp: Option<int>, rsrq: Option<int>, sinr: Option<int>): Outcome {
    if earf.None? || rsrp.None? || rsrq.None? || sinr.None? then Outcome(f, Some(ParseError))
    else
      Outcome(WithDistance(LteServing(f, bwcode, earf.value, rsrp.value, rsrq.value, sinr.value, rssiText), ta), None)
  }

  /** The UMTS branch: every figure through `int.Parse`, UARFCN included. */
  function XsUmtsUpdate(f: Fields, ta: int, line: Match): Outcome {
    XsUmtsParsed(f, ta, ParseInt32(GroupValue(line, "UARFCN")), ParseInt32(GroupValue(line, "RSSI")),
                 ParseInt32(GroupValue(line, "RSCP")), ParseInt32(GroupValue(line, "ECNO")))
  }

  /** The UMTS branch from its four parse results. */
  function XsUmtsParsed(f: Fields, ta: int,
                        uarfcn: Option<int>, rssi: Option<int>, rscp: Option<int>, ecno: Option<int>): Outcome {
    if uarfcn.None? || rssi.None? || rscp.None? || ecno.None? then Outcome(f, Some(ParseError))
    else
      Outcome(WithDistance(UmtsServing(f, uarfcn.value, rssi.value, rscp.value, ecno.value), ta), None)
  }

  /** The LTE serving-cell fields from the raw figures. */
  function LteServing(f: Fields, bwcode: int, earf: int, rsrp: int, rsrq: int, sinr: int, rssiText: string): Fields {
    f.(rsrp := IntText(Wrap32(rsrp - 141)) + " dBm",
       rsrq := IntText(Quot(rsrq, 2) - 20) + " dB",
       sinr := IntText(Quot(sinr, 2)) + " dB",
       earfcn := IntText(earf),
       rssi := RssiText(bwcode, rssiText))
  }

  /** The UMTS serving-cell fields from the raw figures. */
  function UmtsServing(f: Fields, uarfcn: int, rssi: int, rscp: int, ecno: int): Fields {
    f.(uarfcn := IntText(uarfcn),
       rssi := IntText(Wrap32(rssi - 111)) + " dBm",
       rscp := IntText(Wrap32(rscp - 121)) + " dBm",
       ecno := IntText(Quot(ecno, 2) - 24) + " dB")
  }

  /** The distance is written only for a positive timing advance. */
  function WithDistance(f: Fields, ta: int): Fields {
    if ta > 0 then f.(distance := DistanceText(ta)) else f
  }

  /** `DecoderXS` writes `Distance` only for a positive timing advance, and
      only when it did not throw. */
  lemma XsDistance(f: Fields, bwcode: int, ta: int, rat: int, line: Match, rssiText: string)
    ensures var o := XsUpdate(f, bwcode, ta, rat, line, rssiText);
      o.fields.distance == if ta > 0 && o.failure.None? then DistanceText(ta) else f.distance
  {
  }

  /** The printed form of a non-negative `int` is its decimal digits. */
  lemma NonNegativeText(n: int)
    requires 0 <= n
    ensures IntText(n) == NatText(n)
  {
  }

  /** A primary LTE record as the `+XMCI` pattern shapes it (EARFCN with its
      `0x`, RSRP, RSRQ and SINR as plain digits) decodes without an
      exception: RSRP is raw - 141, RSRQ raw / 2 - 20, SINR raw / 2, EARFCN
      the hexadecimal value; only these, RSSI and Distance change. */
  lemma XsLte(f: Fields, bwcode: int, ta: int, line: Match, rssiText: string,
              earfcn: nat, rsrp: nat, rsrq: nat, sinr: nat)
    requires earfcn < TWO_31 && rsrp < TWO_31 && rsrq < TWO_31 && sinr < TWO_31
    requires GroupValue(line, "EARFCN") == "0x" + HexText(earfcn)
    requires GroupValue(line, "RSRP") == NatText(rsrp)
    requires GroupValue(line, "RSRQ") == NatText(rsrq)
    requires GroupValue(line, "SINR") == NatText(sinr)
    ensures var o := XsUpdate(f, bwcode, ta, 4, line, rssiText);
      && o.failure.None?
      && o.fields == WithDistance(f.(
           rsrp := IntText(rsrp - 141) + " dBm",
           rsrq := IntText(rsrq / 2 - 20) + " dB",
           sinr := IntText(sinr / 2) + " dB",
           earfcn := IntText(earfcn),
           rssi := RssiText(bwcode, rssiText)), ta)
  {
    ConvertHexText("0x", earfcn);
    ParseDigits(line, "RSRP", rsrp);
    ParseDigits(line, "RSRQ", rsrq);
    ParseDigits(line, "SINR", sinr);
    XsLteGroups(f, bwcode, ta, line, rssiText, earfcn, rsrp, rsrq, sinr);
    LteFigures(f, bwcode, earfcn, rsrp, rsrq, sinr, rssiText);
  }

  /** The LTE serving-cell fields of non-negative readings, where no
      subtraction wraps around. */
  lemma LteFigures(f: Fields, bwcode: int, earfcn: nat, rsrp: nat, rsrq: nat, sinr: nat, rssiText: string)
    requires rsrp < TWO_31
    ensures LteServing(f, bwcode, earfcn, rsrp, rsrq, sinr, rssiText)
         == f.(rsrp := IntText(rsrp - 141) + " dBm",
               rsrq := IntText(rsrq / 2 - 20) + " dB",
               sinr := IntText(sinr / 2) + " dB",
               earfcn := IntText(earfcn),
               rssi := RssiText(bwcode, rssiText))
  {
    assert Wrap32(rsrp - 141) == rsrp - 141;
    assert Quot(rsrq, 2) == rsrq / 2 && Quot(sinr, 2) == sinr / 2;
  }

  /** The LTE branch reads its four figures from the groups. */
  lemma XsLteGroups(f: Fields, bwcode: int, ta: int, line: Match, rssiText: string,
                    earfcn: int, rsrp: int, rsrq: int, sinr: int)
    requires ConvertHex32(GroupValue(line, "EARFCN")) == Some(earfcn)
    requires ParseInt32(GroupValue(line, "RSRP")) == Some(rsrp)
    requires ParseInt32(GroupValue(line, "RSRQ")) == Some(rsrq)
    requires ParseInt32(GroupValue(line, "SINR")) == Some(sinr)
    ensures XsLteUpdate(f, bwcode, ta, line, rssiText)
         == XsLteParsed(f, bwcode, ta, rssiText, Some(earfcn), Some(rsrp), Some(rsrq), Some(sinr))
  {
  }

  /** A primary UMTS record with decimal UARFCN, RSSI, RSCP and EcNo
      decodes without an exception into the serving-cell fields of those
      readings (`UmtsFigures` spells them out); only these and Distance
      change. */
  lemma XsUmts(f: Fields, bwcode: int, ta: int, line: Match, rssiText: string,
               uarfcn: nat, rssi: nat, rscp: nat, ecno: nat)
    requires uarfcn < TWO_31 && rssi < TWO_31 && rscp < TWO_31 && ecno < TWO_31
    requires GroupValue(line, "UARFCN") == NatText(uarfcn)
    requires GroupValue(line, "RSSI") == NatText(rssi)
    requires GroupValue(line, "RSCP") == NatText(rscp)
    requires GroupValue(line, "ECNO") == NatText(ecno)
    ensures XsUpdate(f, bwcode, ta, 3, line, rssiText)
         == Outcome(WithDistance(UmtsServing(f, uarfcn, rssi, rscp, ecno), ta), None)
  {
    ParseDigits(line, "UARFCN", uarfcn);
    ParseDigits(line, "RSSI", rssi);
    ParseDigits(line, "RSCP", rscp);
    ParseDigits(line, "ECNO", ecno);
    XsUmtsGroups(f, ta, line, uarfcn, rssi, rscp, ecno);
  }

  /** The UMTS branch reads its four figures from the groups. */
  lemma XsUmtsGroups(f: Fields, ta: int, line: Match, uarfcn: int, rssi: int, rscp: int, ecno: int)
    requires ParseInt32(GroupValue(line, "UARFCN")) == Some(uarfcn)
    requires ParseInt32(GroupValue(line, "RSSI")) == Some(rssi)
    requires ParseInt32(GroupValue(line, "RSCP")) == Some(rscp)
    requires ParseInt32(GroupValue(line, "ECNO")) == Some(ecno)
    ensures XsUmtsUpdate(f, ta, line) == XsUmtsParsed(f, ta, Some(uarfcn), Some(rssi), Some(rscp), Some(ecno))
  {
  }

  /** A group holding the digits of an `int` parses back to it. */
  lemma ParseDigits(line: Match, name: string, n: nat)
    requires n < TWO_31 && GroupValue(line, name) == NatText(n)
    ensures ParseInt32(GroupValue(line, name)) == Some(n)
  {
    NonNegativeText(n);
    ParseIntText(n);
  }

  /** The UMTS serving-cell fields of non-negative readings, where no
      subtraction wraps around. */
  lemma UmtsFigures(f: Fields, uarfcn: nat, rssi: nat, rscp: nat, ecno: nat)
    requires uarfcn < TWO_31 && rssi < TWO_31 && rscp < TWO_31 && ecno < TWO_31
    ensures UmtsServing(f, uarfcn, rssi, rscp, ecno)
         == f.(uarfcn := NatText(uarfcn),
               rssi := IntText(rssi - 111) + " dBm",
               rscp := IntText(rscp - 121) + " dBm",
               ecno := IntText(ecno / 2 - 24) + " dB")
  {
    NonNegativeText(uarfcn);
    assert Wrap32(rssi - 111) == rssi - 111 && Wrap32(rscp - 121) == rscp - 121;
    assert Quot(ecno, 2) == ecno / 2;
  }

  /** The same RSCP reading is offset by 121 for the serving cell in
      `DecoderXS` but by 120 for the carrier `XMCIDecoder` lists, so the two
      differ by one dB. */
  lemma RscpOffsetsDiffer(f: Fields, s: Scan, bwcodes: seq<int>, uarfcn: int, rssi: int, rscp: int,
                          psc: int, ecno: int, cgi: int)
    requires 0 <= rscp < TWO_31
    ensures var c := UmtsAccepted(s, bwcodes, psc, uarfcn, rscp, ecno, cgi).carriers[|s.carriers|];
      && c.rscp == rscp - 120
      && UmtsServing(f, uarfcn, rssi, rscp, ecno).rscp == IntText(c.rscp - 1) + " dBm"
  {
    var c := UmtsCarrier(s.idx, cgi % 0x1_0000, psc, GetBandUmts(IntText(uarfcn)), uarfcn, Wrap32(rscp - 120),
                         5 * ecno - 240);
    assert UmtsAccepted(s, bwcodes, psc, uarfcn, rscp, ecno, cgi).carriers == s.carriers + [c];
    assert Wrap32(rscp - 120) == rscp - 120;
    assert Wrap32(rscp - 121) == rscp - 121;
  }

  /** The UMTS `+XMCI` pattern has no `RSSI` group, so its value is the
      empty string and `int.Parse` of it makes `DecoderXS` throw before any
      field is written. */
  lemma XsUmtsMissingRssi(f: Fields, bwcode: int, ta: int, line: Match, rssiText: string)
    requires "RSSI" !in line.groups
    ensures XsUpdate(f, bwcode, ta, 3, line, rssiText) == Outcome(f, Some(ParseError))
  {
    assert GroupValue(line, "RSSI") == "";
    assert Trim("", NUMBER_WHITE) == "";
  }

  /** On the UMTS path `DecoderXS` reads UARFCN as decimal, so the
      `0x`-prefixed UARFCN the UMTS `+XMCI` pattern captures makes it throw
      before any field is written. */
  lemma XsUmtsHexUarfcn(f: Fields, bwcode: int, ta: int, line: Match, rssiText: string, h: string)
    requires |h| > 0 && AllHexDigits(h)
    requires GroupValue(line, "UARFCN") == "0x" + h
    ensures XsUpdate(f, bwcode, ta, 3, line, rssiText) == Outcome(f, Some(ParseError))
  {
    PrefixRejected("0x", h);
  }

  // --------------------------------------------------------- XMCIDecoder

  /** The loop state of `XMCIDecoder`: the band summary so far, the carrier
      counter `idx`, and the two fields of `Result` the loop writes. */
  datatype Scan = Scan(summary: string, idx: nat, carriers: seq<Carrier>, uarfcn: string)

  /** The loop either goes on, or stopped at an exception. */
  datatype Progress = Running(scan: Scan) | Aborted(scan: Scan)

  /** The state the loop starts from: an empty summary, `idx` 1, and the
      carriers and UARFCN `Result` already holds. */
  function Start(f: Fields): Scan {
    Scan("", 1, f.bandList, f.uarfcn)
  }

  /** The bandwidth code of carrier `idx`: `bwcodes[idx]` when in range,
      otherwise `bwcodes.LastOrDefault()` (0 for an empty list). */
  function BwCode(idx: nat, bwcodes: seq<int>): (code: int)
    ensures idx < |bwcodes| ==> code == bwcodes[idx]
    ensures idx >= |bwcodes| && |bwcodes| > 0 ==> code == bwcodes[|bwcodes| - 1]
    ensures |bwcodes| == 0 ==> code == 0
  {
    if idx < |bwcodes| then bwcodes[idx]
    else if |bwcodes| > 0 then bwcodes[|bwcodes| - 1]
    else 0
  }

  /** The groups each technology's record needs. */
  predicate HasLteGroups(m: Match) {
    "PCI" in m.groups && "EARFCN" in m.groups && "RSRP" in m.groups && "RSRQ" in m.groups
  }

  predicate HasUmtsGroups(m: Match) {
    "PSC" in m.groups && "UARFCN" in m.groups && "RSCP" in m.groups
    && "ECNO" in m.groups && "CGI" in m.groups
  }

  /** The cell identity of an LTE record: `(eNodeB << 8) | pci` when the
      eNodeB group is present and parses as hexadecimal, 0 otherwise. */
  function LteCellId(m: Match, pci: int): int
    requires IsInt32(pci)
  {
    if "eNodeB" in m.groups && ParseHex32(m.groups["eNodeB"]).Some? then
      ShiftOr8(ParseHex32(m.groups["eNodeB"]).value, pci)
    else 0
  }

  /** How the loop body treats one LTE record. */
  function LteStep(s: Scan, m: Match, bwcodes: seq<int>): Progress {
    if !HasLteGroups(m) then Running(s)
    else
      var pci := ParseHex32(m.groups["PCI"]);
      var earfcn := ParseHex32(m.groups["EARFCN"]);
      if pci.None? || earfcn.None? then Aborted(s)
      else
        var rsrp := ParseInt32(m.groups["RSRP"]);
        var rsrq := ParseInt32(m.groups["RSRQ"]);
        if rsrp.None? || rsrq.None? then Running(s)
        else Running(LteAccepted(s, m, bwcodes, pci.value, earfcn.value, rsrp.value, rsrq.value))
  }

  /** The loop state after an LTE record whose numbers all parsed: its
      carrier appended, its part added to the summary for `idx` 3 or less. */
  function LteAccepted(s: Scan, m: Match, bwcodes: seq<int>, pci: int, earfcn: int, rawRsrp: int, rawRsrq: int): Scan
    requires IsInt32(pci)
  {
    var band := GetBandLte(IntText(earfcn));
    var part := band.Text() + "|" + MHzText(BwCode(s.idx, bwcodes)) + "MHz";
    var carrier := LteCarrier(s.idx, LteCellId(m, pci), pci, band, earfcn,
                              Wrap32(rawRsrp - 141), Quot(rawRsrq, 2) - 20);
    Scan(if s.idx <= 3 then s.summary + part + " " else s.summary,
         s.idx + 1, s.carriers + [carrier], s.uarfcn)
  }

  /** How the loop body treats one UMTS record. */
  function UmtsStep(s: Scan, m: Match, bwcodes: seq<int>): Progress {
    if !HasUmtsGroups(m) then Running(s)
    else
      var psc := ParseHex32(m.groups["PSC"]);
      var uarfcn := ParseHex32(m.groups["UARFCN"]);
      if psc.None? || uarfcn.None? then Aborted(s)
      else
        var rscp := ParseInt32(m.groups["RSCP"]);
        var ecno := ParseInt32(m.groups["ECNO"]);
        if rscp.None? || ecno.None? then Running(s)
        else
          var cgi := ParseHex64(m.groups["CGI"]);
          if cgi.None? then Aborted(s)
          else Running(UmtsAccepted(s, bwcodes, psc.value, uarfcn.value, rscp.value, ecno.value, cgi.value))
  }

  /** The loop state after a UMTS record whose numbers all parsed. The cell
      identity is the low 16 bits of the 64-bit CGI (`(int)(cgi & 0xFFFF)`);
      `UARFCN` is written only when `idx` is 0; the band joins the summary
      while `idx` is a valid index into `bwcodes`. */
  function UmtsAccepted(s: Scan, bwcodes: seq<int>, psc: int, uarfcn: int, rawRscp: int, rawEcno: int, cgi: int): Scan {
    var band := GetBandUmts(IntText(uarfcn));
    var carrier := UmtsCarrier(s.idx, cgi % 0x1_0000, psc, band, uarfcn,
                               Wrap32(rawRscp - 120), 5 * rawEcno - 240);
    Scan(if s.idx < |bwcodes| then s.summary + band.Text() + " " else s.summary,
         s.idx + 1, s.carriers + [carrier],
         if s.idx == 0 then IntText(uarfcn) else s.uarfcn)
  }

  /** One pass of the loop body. A failed match is passed over; a
      technology other than 3 or 4 only advances `idx`. */
  function Step(s: Scan, m: Match, rat: int, bwcodes: seq<int>): Progress {
    if !m.success then Running(s)
    else if rat == 4 then LteStep(s, m, bwcodes)
    else if rat == 3 then UmtsStep(s, m, bwcodes)
    else Running(s.(idx := s.idx + 1))
  }

  /** The loop over `matches`, in order, stopping at the first exception. */
  function ScanAll(s0: Scan, matches: seq<Match>, rat: int, bwcodes: seq<int>): Progress
    decreases |matches|
  {
    if |matches| == 0 then Running(s0)
    else
      match ScanAll(s0, matches[..|matches| - 1], rat, bwcodes)
      case Aborted(s) => Aborted(s)
      case Running(s) => Step(s, matches[|matches| - 1], rat, bwcodes)
  }

  /** `XMCIDecoder`: the carriers appended to `BandList`, and `Band` set to
      the trimmed summary unless the loop threw. */
  function XmciDecoded(f: Fields, matches: seq<Match>, rat: int, bwcodes: seq<int>): Outcome {
    match ScanAll(Start(f), matches, rat, bwcodes)
    case Running(s) =>
      Outcome(f.(bandList := s.carriers, uarfcn := s.uarfcn, band := Trim(s.summary, WHITE_SPACE)), None)
    case Aborted(s) =>
      Outcome(f.(bandList := s.carriers, uarfcn := s.uarfcn), Some(ParseError))
  }

  /** The effect of one loop pass on the state: a passed-over record leaves
      it as it was, an accepted one appends exactly one carrier numbered
      `idx` and advances `idx`, and `BandList` only ever grows. */
  lemma StepEffect(s: Scan, m: Match, rat: int, bwcodes: seq<int>)
    ensures var p := Step(s, m, rat, bwcodes);
      && (p.Aborted? ==> p.scan == s)
      && (p.scan.idx == s.idx || p.scan.idx == s.idx + 1)
      && (p.scan.idx == s.idx ==> p.scan == s)
      && (p.scan.idx == s.idx + 1 && (rat == 3 || rat == 4) ==>
            && |p.scan.carriers| == |s.carriers| + 1
            && p.scan.carriers[..|s.carriers|] == s.carriers
            && p.scan.carriers[|s.carriers|].index == s.idx)
      && (p.scan.idx == s.idx + 1 && rat != 3 && rat != 4 ==> p.scan.carriers == s.carriers)
  {
  }

  /** `ScanAll` only appends to `BandList`, never lowers `idx`, and with
      `idx` starting at 1 or more never writes `UARFCN`: the `idx == 0`
      branch of the UMTS path is dead. */
  lemma {:induction false} ScanGrows(s0: Scan, matches: seq<Match>, rat: int, bwcodes: seq<int>)
    ensures var s := ScanAll(s0, matches, rat, bwcodes).scan;
      && s.idx >= s0.idx
      && |s.carriers| >= |s0.carriers| && s.carriers[..|s0.carriers|] == s0.carriers
      && (s0.idx >= 1 ==> s.uarfcn == s0.uarfcn)
    decreases |matches|
  {
    if |matches| > 0 {
      var prefix := matches[..|matches| - 1];
      ScanGrows(s0, prefix, rat, bwcodes);
      var s := ScanAll(s0, prefix, rat, bwcodes).scan;
      StepEffect(s, matches[|matches| - 1], rat, bwcodes);
      var t := ScanAll(s0, matches, rat, bwcodes).scan;
      assert t == Step(s, matches[|matches| - 1], rat, bwcodes).scan || t == s;
      if |t.carriers| > |s.carriers| {
        assert t.carriers[..|s0.carriers|] == t.carriers[..|s.carriers|][..|s0.carriers|];
      }
    }
  }

  /** After the loop `XMCIDecoder` never touched `UARFCN`. */
  lemma XmciKeepsUarfcn(f: Fields, matches: seq<Match>, rat: int, bwcodes: seq<int>)
    ensures XmciDecoded(f, matches, rat, bwcodes).fields.uarfcn == f.uarfcn
  {
    ScanGrows(Start(f), matches, rat, bwcodes);
  }

  /** Once the loop has thrown, later records change nothing. */
  lemma {:induction false} AbortAbsorbs(s0: Scan, matches: seq<Match>, k: nat, rat: int, bwcodes: seq<int>)
    requires k <= |matches| && ScanAll(s0, matches[..k], rat, bwcodes).Aborted?
    ensures ScanAll(s0, matches, rat, bwcodes) == ScanAll(s0, matches[..k], rat, bwcodes)
    decreases |matches|
  {
    if |matches| > k {
      var prefix := matches[..|matches| - 1];
      assert prefix[..k] == matches[..k];
      AbortAbsorbs(s0, prefix, k, rat, bwcodes);
    } else {
      assert matches[..k] == matches;
    }
  }

  /** The summary part each kind of carrier contributes: an LTE carrier
      numbered 3 or less adds `band|bandwidthMHz `, a UMTS carrier whose
      number is a valid index into `bwcodes` adds `band `. */
  function Part(c: Carrier, bwcodes: seq<int>): string {
    match c
    case LteCarrier(i, _, _, band, _, _, _) =>
      if i <= 3 then band.Text() + "|" + MHzText(BwCode(i, bwcodes)) + "MHz" + " " else ""
    case UmtsCarrier(i, _, _, band, _, _, _) =>
      if i < |bwcodes| then band.Text() + " " else ""
  }

  /** The parts of `cs`, in order. */
  function Summary(cs: seq<Carrier>, bwcodes: seq<int>): string
    decreases |cs|
  {
    if |cs| == 0 then "" else Summary(cs[..|cs| - 1], bwcodes) + Part(cs[|cs| - 1], bwcodes)
  }

  /** The invariant of the loop for LTE (4) or UMTS (3): the carriers it
      appended after the `n0` already listed are of that technology,
      numbered 1, 2, ... in order, `idx` is one more than their count, and
      the summary is made of their parts. */
  predicate Numbered(s: Scan, n0: nat, rat: int, bwcodes: seq<int>) {
    && |s.carriers| >= n0
    && s.idx == |s.carriers| - n0 + 1
    && (forall j :: n0 <= j < |s.carriers| ==> s.carriers[j].index == j - n0 + 1)
    && (forall j :: n0 <= j < |s.carriers| ==> (s.carriers[j].LteCarrier? <==> rat == 4))
    && s.summary == Summary(s.carriers[n0..], bwcodes)
  }

  /** An accepted LTE record appends its carrier's part to the summary. */
  lemma LteStepPart(s: Scan, m: Match, bwcodes: seq<int>)
    requires LteStep(s, m, bwcodes).Running? && LteStep(s, m, bwcodes).scan.idx == s.idx + 1
    ensures var t := LteStep(s, m, bwcodes).scan;
      && |t.carriers| == |s.carriers| + 1
      && t.carriers[|s.carriers|].LteCarrier?
      && t.summary == s.summary + Part(t.carriers[|s.carriers|], bwcodes)
  {
    var pci := ParseHex32(m.groups["PCI"]).value;
    var earfcn := ParseHex32(m.groups["EARFCN"]).value;
    var rsrp := ParseInt32(m.groups["RSRP"]).value;
    var rsrq := ParseInt32(m.groups["RSRQ"]).value;
    assert LteStep(s, m, bwcodes).scan == LteAccepted(s, m, bwcodes, pci, earfcn, rsrp, rsrq);
    LteAcceptedPart(s, m, bwcodes, pci, earfcn, rsrp, rsrq);
  }

  lemma LteAcceptedPart(s: Scan, m: Match, bwcodes: seq<int>, pci: int, earfcn: int, rsrp: int, rsrq: int)
    requires IsInt32(pci)
    ensures var t := LteAccepted(s, m, bwcodes, pci, earfcn, rsrp, rsrq);
      && |t.carriers| == |s.carriers| + 1
      && t.carriers[|s.carriers|].LteCarrier?
      && t.summary == s.summary + Part(t.carriers[|s.carriers|], bwcodes)
  {
    var band := GetBandLte(IntText(earfcn));
    var part := band.Text() + "|" + MHzText(BwCode(s.idx, bwcodes)) + "MHz";
    var c := LteCarrier(s.idx, LteCellId(m, pci), pci, band, earfcn, Wrap32(rsrp - 141), Quot(rsrq, 2) - 20);
    var t := LteAccepted(s, m, bwcodes, pci, earfcn, rsrp, rsrq);
    assert t.carriers == s.carriers + [c];
    if s.idx <= 3 {
      assert Part(c, bwcodes) == part + " ";
      assert t.summary == s.summary + part + " ";
    } else {
      assert Part(c, bwcodes) == "";
    }
  }

  /** An accepted UMTS record appends its carrier's part to the summary. */
  lemma UmtsStepPart(s: Scan, m: Match, bwcodes: seq<int>)
    requires UmtsStep(s, m, bwcodes).Running? && UmtsStep(s, m, bwcodes).scan.idx == s.idx + 1
    ensures var t := UmtsStep(s, m, bwcodes).scan;
      && |t.carriers| == |s.carriers| + 1
      && t.carriers[|s.carriers|].UmtsCarrier?
      && t.summary == s.summary + Part(t.carriers[|s.carriers|], bwcodes)
  {
    var psc := ParseHex32(m.groups["PSC"]).value;
    var uarfcn := ParseHex32(m.groups["UARFCN"]).value;
    var rscp := ParseInt32(m.groups["RSCP"]).value;
    var ecno := ParseInt32(m.groups["ECNO"]).value;
    var cgi := ParseHex64(m.groups["CGI"]).value;
    assert UmtsStep(s, m, bwcodes).scan == UmtsAccepted(s, bwcodes, psc, uarfcn, rscp, ecno, cgi);
    UmtsAcceptedPart(s, bwcodes, psc, uarfcn, rscp, ecno, cgi);
  }

  lemma UmtsAcceptedPart(s: Scan, bwcodes: seq<int>, psc: int, uarfcn: int, rscp: int, ecno: int, cgi: int)
    ensures var t := UmtsAccepted(s, bwcodes, psc, uarfcn, rscp, ecno, cgi);
      && |t.carriers| == |s.carriers| + 1
      && t.carriers[|s.carriers|].UmtsCarrier?
      && t.summary == s.summary + Part(t.carriers[|s.carriers|], bwcodes)
  {  var band := GetBandUmts(IntText(uarfcn));
    var c := UmtsCarrier(s.idx, cgi % 0x1_0000, psc, band, uarfcn, Wrap32(rscp - 120), 5 * ecno - 240);
    var t := UmtsAccepted(s, bwcodes, psc, uarfcn, rscp, ecno, cgi);
    assert t.carriers == s.carriers + [c];
    if s.idx < |bwcodes| {
      assert Part(c, bwcodes) == band.Text() + " ";
    } else {
      assert Part(c, bwcodes) == "";
    }
  }

  /** One loop pass keeps the invariant. */
  lemma StepNumbered(s: Scan, m: Match, n0: nat, rat: int, bwcodes: seq<int>)
    requires rat == 3 || rat == 4
    requires Numbered(s, n0, rat, bwcodes)
    ensures Numbered(Step(s, m, rat, bwcodes).scan, n0, rat, bwcodes)
  {
    var t := Step(s, m, rat, bwcodes).scan;
    StepEffect(s, m, rat, bwcodes);
    if t.idx == s.idx + 1 {
      if rat == 4 {
        LteStepPart(s, m, bwcodes);
      } else {
        UmtsStepPart(s, m, bwcodes);
      }
      var c := t.carriers[|s.carriers|];
      assert t.carriers == s.carriers + [c];
      AppendedNumbered(s, t, c, n0, rat, bwcodes);
    }
  }

  /** Appending a carrier of the scan's technology, numbered one after the
      last, keeps the invariant. */
  lemma AppendedNumbered(s: Scan, t: Scan, c: Carrier, n0: nat, rat: int, bwcodes: seq<int>)
    requires Numbered(s, n0, rat, bwcodes)
    requires t.carriers == s.carriers + [c] && t.idx == s.idx + 1
    requires c.index == s.idx && (c.LteCarrier? <==> rat == 4)
    requires t.summary == s.summary + Part(c, bwcodes)
    ensures Numbered(t, n0, rat, bwcodes)
  {
    AppendedSummary(s.carriers, c, n0, bwcodes);
    forall j | n0 <= j < |t.carriers|
      ensures t.carriers[j].index == j - n0 + 1
      ensures t.carriers[j].LteCarrier? <==> rat == 4
    {
      if j < |s.carriers| {
        assert t.carriers[j] == s.carriers[j];
      }
    }
  }

  /** Appending a carrier appends its part. */
  lemma AppendedSummary(cs: seq<Carrier>, c: Carrier, n0: nat, bwcodes: seq<int>)
    requires n0 <= |cs|
    ensures Summary((cs + [c])[n0..], bwcodes) == Summary(cs[n0..], bwcodes) + Part(c, bwcodes)
  {
    var t := (cs + [c])[n0..];
    assert t[..|t| - 1] == cs[n0..];
    assert t[|t| - 1] == c;
  }

  /** The loop keeps the invariant from its first pass to its last. */
  lemma {:induction false} ScanNumbered(f: Fields, matches: seq<Match>, rat: int, bwcodes: seq<int>)
    requires rat == 3 || rat == 4
    ensures Numbered(ScanAll(Start(f), matches, rat, bwcodes).scan, |f.bandList|, rat, bwcodes)
    decreases |matches|
  {
    if |matches| == 0 {
      assert f.bandList[|f.bandList|..] == [];
    } else {
      var prefix := matches[..|matches| - 1];
      ScanNumbered(f, prefix, rat, bwcodes);
      StepNumbered(ScanAll(Start(f), prefix, rat, bwcodes).scan, matches[|matches| - 1],
                   |f.bandList|, rat, bwcodes);
    }
  }

  /** LTE carriers numbered 1, 2, ... */
  predicate LteNumbered(cs: seq<Carrier>) {
    forall j :: 0 <= j < |cs| ==> cs[j].LteCarrier? && cs[j].index == j + 1
  }

  /** The LTE summary holds the first three carriers and no others. */
  lemma {:induction false} LteSummaryFirstThree(cs: seq<Carrier>, bwcodes: seq<int>)
    requires LteNumbered(cs)
    ensures Summary(cs, bwcodes) == Summary(cs[..if |cs| < 3 then |cs| else 3], bwcodes)
    decreases |cs|
  {
    if |cs| > 3 {
      var prefix := cs[..|cs| - 1];
      assert LteNumbered(prefix);
      LteSummaryFirstThree(prefix, bwcodes);
      assert prefix[..3] == cs[..3];
    } else {
      assert cs[..|cs|] == cs;
    }
  }

  /** What `XMCIDecoder` does for LTE: `BandList` keeps what it held and
      gains one carrier per accepted record, numbered 1, 2, ...; `Band` is
      the trimmed parts of the first three of them; `UARFCN` and every other
      field are left alone. */
  lemma XmciLte(f: Fields, matches: seq<Match>, bwcodes: seq<int>)
    ensures |XmciDecoded(f, matches, 4, bwcodes).fields.bandList| >= |f.bandList|
    ensures var o := XmciDecoded(f, matches, 4, bwcodes);
      var added := o.fields.bandList[|f.bandList|..];
      && LteNumbered(added)
      && (o.failure.None? ==>
            o.fields == f.(bandList := f.bandList + added,
                           band := Trim(Summary(added[..if |added| < 3 then |added| else 3], bwcodes),
                                        WHITE_SPACE)))
      && (o.failure.Some? ==> o.fields == f.(bandList := f.bandList + added))
  {
    var p := ScanAll(Start(f), matches, 4, bwcodes);
    var s := p.scan;
    ScanGrows(Start(f), matches, 4, bwcodes);
    ScanNumbered(f, matches, 4, bwcodes);
    var added := s.carriers[|f.bandList|..];
    assert s.carriers == f.bandList + added;
    AddedNumbered(s, |f.bandList|, 4, bwcodes);
    LteSummaryFirstThree(added, bwcodes);
    XmciDecodedScan(f, matches, 4, bwcodes);
  }

  /** `XMCIDecoder` in terms of the final loop state, `UARFCN` unchanged. */
  lemma XmciDecodedScan(f: Fields, matches: seq<Match>, rat: int, bwcodes: seq<int>)
    ensures var p := ScanAll(Start(f), matches, rat, bwcodes);
      XmciDecoded(f, matches, rat, bwcodes) ==
        if p.Running? then Outcome(f.(bandList := p.scan.carriers, band := Trim(p.scan.summary, WHITE_SPACE)), None)
        else Outcome(f.(bandList := p.scan.carriers), Some(ParseError))
  {
    ScanGrows(Start(f), matches, rat, bwcodes);
  }

  /** The carriers the loop appended, renumbered from 0. */
  lemma AddedNumbered(s: Scan, n0: nat, rat: int, bwcodes: seq<int>)
    requires Numbered(s, n0, rat, bwcodes) && rat == 4
    ensures LteNumbered(s.carriers[n0..])
  {
    var added := s.carriers[n0..];
    forall j | 0 <= j < |added|
      ensures added[j].LteCarrier? && added[j].index == j + 1
    {
      assert added[j] == s.carriers[n0 + j];
    }
  }


  /** An LTE record is passed over, `idx` and everything else unchanged,
      when it failed, lacks one of its groups, or (its PCI and EARFCN having
      parsed) its RSRP or RSRQ is not an `int`. */
  lemma LteSkipped(s: Scan, m: Match, bwcodes: seq<int>)
    requires || !m.success
             || !HasLteGroups(m)
             || (&& ParseHex32(m.groups["PCI"]).Some? && ParseHex32(m.groups["EARFCN"]).Some?
                 && (ParseInt32(m.groups["RSRP"]).None? || ParseInt32(m.groups["RSRQ"]).None?))
    ensures Step(s, m, 4, bwcodes) == Running(s)
  {
  }

  /** The `+XMCI` pattern captures PCI with its `0x` prefix, which
      `int.Parse(..., NumberStyles.HexNumber)` rejects: such a record makes
      the loop throw. */
  lemma LtePrefixedPciAborts(s: Scan, m: Match, bwcodes: seq<int>, h: string)
    requires m.success && HasLteGroups(m)
    requires |h| > 0 && AllHexDigits(h) && m.groups["PCI"] == "0x" + h
    ensures Step(s, m, 4, bwcodes) == Aborted(s)
  {
    PrefixRejected("0x", h);
  }

  /** So when the first record is shaped by that pattern, `XMCIDecoder`
      throws before adding any carrier and before writing `Band`. */
  lemma XmciPrefixedPciAborts(f: Fields, matches: seq<Match>, bwcodes: seq<int>, h: string)
    requires |matches| > 0 && matches[0].success && HasLteGroups(matches[0])
    requires |h| > 0 && AllHexDigits(h) && matches[0].groups["PCI"] == "0x" + h
    ensures XmciDecoded(f, matches, 4, bwcodes) == Outcome(f, Some(ParseError))
  {
    var s0 := Start(f);
    assert matches[..1][..0] == [];
    LtePrefixedPciAborts(s0, matches[0], bwcodes, h);
    assert ScanAll(s0, matches[..1], 4, bwcodes) == Aborted(s0);
    AbortAbsorbs(s0, matches, 1, 4, bwcodes);
  }

  /** The cell identity is `eNodeB * 256 + pci` for an eNodeB of up to 23
      bits written without a prefix and a PCI below 256; a `0x`-prefixed or
      missing eNodeB gives 0. */
  lemma LteCellIdValue(m: Match, pci: int, e: nat)
    requires 0 <= pci < 0x100
    ensures "eNodeB" in m.groups && m.groups["eNodeB"] == HexText(e) && e < 0x80_0000 ==>
      LteCellId(m, pci) == e * 0x100 + pci
    ensures "eNodeB" in m.groups && m.groups["eNodeB"] == "0x" + HexText(e) ==> LteCellId(m, pci) == 0
    ensures "eNodeB" !in m.groups ==> LteCellId(m, pci) == 0
  {
    TrimUnchanged(HexText(e), NUMBER_WHITE);
    PrefixRejected("0x", HexText(e));
    if e < 0x80_0000 {
      ShiftOr8Arithmetic(e, pci);
    }
  }

  /** The UMTS `+XMCI` pattern captures PSC with its `0x` prefix too: such a
      record makes the loop throw. */
  lemma UmtsPrefixedPscAborts(s: Scan, m: Match, bwcodes: seq<int>, h: string)
    requires m.success && HasUmtsGroups(m)
    requires |h| > 0 && AllHexDigits(h) && m.groups["PSC"] == "0x" + h
    ensures Step(s, m, 3, bwcodes) == Aborted(s)
  {
    PrefixRejected("0x", h);
  }

  // ------------------------------------------------- which records are listed

  /** An LTE record the loop turns into a carrier: it matched, it has its
      four groups, PCI and EARFCN parse as hexadecimal and RSRP and RSRQ as
      `int`. */
  predicate LteAcceptable(m: Match) {
    && m.success && HasLteGroups(m)
    && ParseHex32(m.groups["PCI"]).Some? && ParseHex32(m.groups["EARFCN"]).Some?
    && ParseInt32(m.groups["RSRP"]).Some? && ParseInt32(m.groups["RSRQ"]).Some?
  }

  /** An LTE record that makes the loop throw: it matched and has its four
      groups, but its PCI or EARFCN is not hexadecimal. */
  predicate LteThrows(m: Match) {
    && m.success && HasLteGroups(m)
    && (ParseHex32(m.groups["PCI"]).None? || ParseHex32(m.groups["EARFCN"]).None?)
  }

  /** What the LTE loop makes of one record: it throws, it lists a carrier
      with these figures, or it passes over the record. */
  datatype LteVerdict =
    | LteThrown
    | LteIgnored
    | LteListedAs(ci: int, pci: int, band: Bands.Band, earfcn: int, rsrp: int, rsrq: int)

  /** The verdict on one record: the cell identity and PCI, the
      breakpoint-table band of the EARFCN, RSRP raw - 141 and RSRQ
      raw / 2 - 20 in C# `int` arithmetic for an acceptable record. */
  function LteVerdictOf(m: Match): (v: LteVerdict)
    ensures v.LteThrown? <==> LteThrows(m)
    ensures v.LteListedAs? <==> LteAcceptable(m)
  {
    if LteThrows(m) then LteThrown
    else if LteAcceptable(m) then
      var pci := ParseHex32(m.groups["PCI"]).value;
      var earfcn := ParseHex32(m.groups["EARFCN"]).value;
      LteListedAs(LteCellId(m, pci), pci, LteBandOf(earfcn), earfcn,
                  Wrap32(ParseInt32(m.groups["RSRP"]).value - 141),
                  Quot(ParseInt32(m.groups["RSRQ"]).value, 2) - 20)
    else LteIgnored
  }

  /** The verdicts on `ms`, record by record. */
  function LteVerdicts(ms: seq<Match>): seq<LteVerdict> {
    seq(|ms|, i requires 0 <= i < |ms| => LteVerdictOf(ms[i]))
  }

  /** The carriers a verdict adds when the record is numbered `idx`. */
  function ListedBy(v: LteVerdict, idx: nat): seq<Carrier> {
    match v
    case LteListedAs(ci, pci, band, earfcn, rsrp, rsrq) => [LteCarrier(idx, ci, pci, band, earfcn, rsrp, rsrq)]
    case _ => []
  }

  /** Some verdict among `vs` is a throw. */
  predicate ThrownIn(vs: seq<LteVerdict>)
    decreases |vs|
  {
    |vs| > 0 && (ThrownIn(vs[..|vs| - 1]) || vs[|vs| - 1].LteThrown?)
  }

  /** The carriers listed for `vs` before the first throw, in order,
      numbered from `first`. */
  function ListingOf(vs: seq<LteVerdict>, first: nat): seq<Carrier>
    decreases |vs|
  {
    if |vs| == 0 then []
    else
      var pre := ListingOf(vs[..|vs| - 1], first);
      if ThrownIn(vs[..|vs| - 1]) then pre
      else pre + ListedBy(vs[|vs| - 1], first + |pre|)
  }

  /** An LTE record advances `idx` exactly when it is acceptable, and then
      the loop goes on from `LteAccepted` of its parsed numbers. */
  lemma {:induction false} LteAccepts(s: Scan, m: Match, bwcodes: seq<int>)
    ensures Step(s, m, 4, bwcodes).scan.idx == s.idx + 1 <==> LteAcceptable(m)
    ensures Step(s, m, 4, bwcodes).Aborted? <==> LteThrows(m)
    ensures LteAcceptable(m) ==>
      Step(s, m, 4, bwcodes) ==
        Running(LteAccepted(s, m, bwcodes, ParseHex32(m.groups["PCI"]).value,
                            ParseHex32(m.groups["EARFCN"]).value,
                            ParseInt32(m.groups["RSRP"]).value, ParseInt32(m.groups["RSRQ"]).value))
  {
  }

  /** What an accepted LTE record adds: exactly one carrier numbered `idx`,
      holding its cell identity, PCI, the table band of its EARFCN, the
      EARFCN, and RSRP and RSRQ, which for the non-negative readings the
      pattern captures are raw - 141 and raw / 2 - 20. */
  lemma {:induction false} LteCarrierFigures(s: Scan, m: Match, bwcodes: seq<int>, pci: int, earfcn: int, rawRsrp: int, rawRsrq: int)
    requires IsInt32(pci) && IsInt32(earfcn) && IsInt32(rawRsrp) && IsInt32(rawRsrq)
    ensures var t := LteAccepted(s, m, bwcodes, pci, earfcn, rawRsrp, rawRsrq);
      && t.idx == s.idx + 1 && t.uarfcn == s.uarfcn
      && t.carriers == s.carriers + [LteCarrier(s.idx, LteCellId(m, pci), pci, LteBandOf(earfcn), earfcn,
                                                Wrap32(rawRsrp - 141), Quot(rawRsrq, 2) - 20)]
      && (rawRsrp >= 0 ==> t.carriers[|s.carriers|].rsrp == rawRsrp - 141)
      && (rawRsrq >= 0 ==> t.carriers[|s.carriers|].rsrq == rawRsrq / 2 - 20)
  {
    GetBandLteOfInt(earfcn);
    var c := LteCarrier(s.idx, LteCellId(m, pci), pci, LteBandOf(earfcn), earfcn,
                        Wrap32(rawRsrp - 141), Quot(rawRsrq, 2) - 20);
    var t := LteAccepted(s, m, bwcodes, pci, earfcn, rawRsrp, rawRsrq);
    assert t.carriers == s.carriers + [c];
    assert t.carriers[|s.carriers|] == c;
    if rawRsrq >= 0 {
      assert Quot(rawRsrq, 2) == rawRsrq / 2;
    }
  }

  /** One LTE pass in terms of its verdict: a listed record appends its
      carrier numbered `idx`, any other leaves the list and `idx` alone. */
  lemma {:induction false} LteStepVerdict(s: Scan, m: Match, bwcodes: seq<int>)
    ensures Step(s, m, 4, bwcodes).Aborted? <==> LteVerdictOf(m).LteThrown?
    ensures Step(s, m, 4, bwcodes).scan.carriers == s.carriers + ListedBy(LteVerdictOf(m), s.idx)
    ensures Step(s, m, 4, bwcodes).scan.idx == s.idx + |ListedBy(LteVerdictOf(m), s.idx)|
  {
    if LteAcceptable(m) {
      LteStepListed(s, m, bwcodes);
    } else {
      LteStepUnlisted(s, m, bwcodes);
    }
  }

  /** An acceptable LTE record appends the carrier its verdict lists. */
  lemma {:induction false} LteStepListed(s: Scan, m: Match, bwcodes: seq<int>)
    requires LteAcceptable(m)
    ensures Step(s, m, 4, bwcodes).Running?
    ensures Step(s, m, 4, bwcodes).scan.carriers == s.carriers + ListedBy(LteVerdictOf(m), s.idx)
    ensures Step(s, m, 4, bwcodes).scan.idx == s.idx + 1 && |ListedBy(LteVerdictOf(m), s.idx)| == 1
  {
    LteAccepts(s, m, bwcodes);
    LteVerdictValues(m);
    LteAcceptedAppends(s, m, bwcodes, ParseHex32(m.groups["PCI"]).value, ParseHex32(m.groups["EARFCN"]).value,
                       ParseInt32(m.groups["RSRP"]).value, ParseInt32(m.groups["RSRQ"]).value);
    ListedCarrier(s, Step(s, m, 4, bwcodes).scan, LteVerdictOf(m));
  }

  /** A scan that appended the carrier of a listing verdict holds what
      `ListedBy` says. */
  lemma ListedCarrier(s: Scan, t: Scan, v: LteVerdict)
    requires v.LteListedAs?
    requires t.carriers == s.carriers + [LteCarrier(s.idx, v.ci, v.pci, v.band, v.earfcn, v.rsrp, v.rsrq)]
    ensures t.carriers == s.carriers + ListedBy(v, s.idx) && |ListedBy(v, s.idx)| == 1
  {
  }

  /** An acceptable record's verdict lists its parsed numbers. */
  lemma {:induction false} LteVerdictValues(m: Match)
    ensures LteAcceptable(m) ==>
      var v := LteVerdictOf(m);
      var pci := ParseHex32(m.groups["PCI"]).value;
      var earfcn := ParseHex32(m.groups["EARFCN"]).value;
      && v.LteListedAs?
      && v.ci == LteCellId(m, pci) && v.pci == pci && v.band == LteBandOf(earfcn) && v.earfcn == earfcn
      && v.rsrp == Wrap32(ParseInt32(m.groups["RSRP"]).value - 141)
      && v.rsrq == Quot(ParseInt32(m.groups["RSRQ"]).value, 2) - 20
  {
  }

  /** `LteAccepted` appends one carrier and advances `idx`. */
  lemma {:induction false} LteAcceptedAppends(s: Scan, m: Match, bwcodes: seq<int>, pci: int, earfcn: int, rawRsrp: int, rawRsrq: int)
    requires IsInt32(pci) && IsInt32(earfcn)
    ensures var t := LteAccepted(s, m, bwcodes, pci, earfcn, rawRsrp, rawRsrq);
      && t.idx == s.idx + 1 && t.uarfcn == s.uarfcn
      && t.carriers == s.carriers + [LteCarrier(s.idx, LteCellId(m, pci), pci, LteBandOf(earfcn), earfcn,
                                                Wrap32(rawRsrp - 141), Quot(rawRsrq, 2) - 20)]
  {
    GetBandLteOfInt(earfcn);
  }

  /** Any other LTE record leaves the loop state as it was. */
  lemma {:induction false} LteStepUnlisted(s: Scan, m: Match, bwcodes: seq<int>)
    requires !LteAcceptable(m)
    ensures Step(s, m, 4, bwcodes).Aborted? <==> LteThrows(m)
    ensures Step(s, m, 4, bwcodes).scan == s
    ensures ListedBy(LteVerdictOf(m), s.idx) == []
  {
    LteAccepts(s, m, bwcodes);
    StepEffect(s, m, 4, bwcodes);
  }

  /** The LTE loop over any records lists exactly the carriers of the
      verdicts before the first throw, and throws exactly when some
      record does. */
  lemma {:induction false} ScanLteCarriers(s0: Scan, ms: seq<Match>, bwcodes: seq<int>, vs: seq<LteVerdict>)
    requires |vs| == |ms| && forall i :: 0 <= i < |ms| ==> vs[i] == LteVerdictOf(ms[i])
    ensures ScanAll(s0, ms, 4, bwcodes).Aborted? <==> ThrownIn(vs)
    ensures ScanAll(s0, ms, 4, bwcodes).scan.carriers == s0.carriers + ListingOf(vs, s0.idx)
    ensures ScanAll(s0, ms, 4, bwcodes).scan.idx == s0.idx + |ListingOf(vs, s0.idx)|
    decreases |ms|
  {
    if |ms| == 0 {
      assert !ThrownIn(vs);
    } else {
      var before := vs[..|vs| - 1];
      assert forall i :: 0 <= i < |ms| - 1 ==> before[i] == LteVerdictOf(ms[..|ms| - 1][i]);
      ScanLteCarriers(s0, ms[..|ms| - 1], bwcodes, before);
      ScanLtePass(s0, ms, bwcodes);
      LteProgressLast(ScanAll(s0, ms[..|ms| - 1], 4, bwcodes), ScanAll(s0, ms, 4, bwcodes),
                      vs, s0.carriers, s0.idx);
    }
  }

  /** `ScanAll` one record further. */
  lemma {:induction false} ScanAllLast(s0: Scan, ms: seq<Match>, rat: int, bwcodes: seq<int>)
    requires |ms| > 0
    ensures var p := ScanAll(s0, ms[..|ms| - 1], rat, bwcodes);
      ScanAll(s0, ms, rat, bwcodes) == if p.Aborted? then p else Step(p.scan, ms[|ms| - 1], rat, bwcodes)
  {
  }

  /** The last pass of the LTE loop in terms of its record's verdict. */
  lemma {:induction false} ScanLtePass(s0: Scan, ms: seq<Match>, bwcodes: seq<int>)
    requires |ms| > 0
    ensures var p := ScanAll(s0, ms[..|ms| - 1], 4, bwcodes);
      var q := ScanAll(s0, ms, 4, bwcodes);
      var v := LteVerdictOf(ms[|ms| - 1]);
      && (p.Aborted? ==> q == p)
      && (p.Running? ==>
            && (q.Aborted? <==> v.LteThrown?)
            && q.scan.carriers == p.scan.carriers + ListedBy(v, p.scan.idx)
            && q.scan.idx == p.scan.idx + |ListedBy(v, p.scan.idx)|)
  {
    ScanAllLast(s0, ms, 4, bwcodes);
    var p := ScanAll(s0, ms[..|ms| - 1], 4, bwcodes);
    if p.Running? {
      LteStepVerdict(p.scan, ms[|ms| - 1], bwcodes);
    }
  }

  /** The last pass of the LTE loop, from the state `p` the earlier passes
      left to the state `q` after a record whose verdict ends `vs`. */
  lemma {:induction false} LteProgressLast(p: Progress, q: Progress, vs: seq<LteVerdict>, base: seq<Carrier>, first: nat)
    requires |vs| > 0
    requires p.Aborted? ==> q == p
    requires p.Running? ==>
      && (q.Aborted? <==> vs[|vs| - 1].LteThrown?)
      && q.scan.carriers == p.scan.carriers + ListedBy(vs[|vs| - 1], p.scan.idx)
      && q.scan.idx == p.scan.idx + |ListedBy(vs[|vs| - 1], p.scan.idx)|
    requires p.Aborted? <==> ThrownIn(vs[..|vs| - 1])
    requires p.scan.carriers == base + ListingOf(vs[..|vs| - 1], first)
    requires p.scan.idx == first + |ListingOf(vs[..|vs| - 1], first)|
    ensures q.Aborted? <==> ThrownIn(vs)
    ensures q.scan.carriers == base + ListingOf(vs, first)
    ensures q.scan.idx == first + |ListingOf(vs, first)|
  {
    ListingOfLast(vs, first);
    if p.Running? {
      var pre := ListingOf(vs[..|vs| - 1], first);
      AppendListed(base, pre, ListedBy(vs[|vs| - 1], first + |pre|), p.scan.carriers,
                   q.scan.carriers, ListingOf(vs, first));
    }
  }

  /** `ListingOf` one verdict further. */
  lemma {:induction false} ListingOfLast(vs: seq<LteVerdict>, first: nat)
    requires |vs| > 0
    ensures ThrownIn(vs) <==> ThrownIn(vs[..|vs| - 1]) || vs[|vs| - 1].LteThrown?
    ensures var pre := ListingOf(vs[..|vs| - 1], first);
      ListingOf(vs, first) ==
        if ThrownIn(vs[..|vs| - 1]) then pre else pre + ListedBy(vs[|vs| - 1], first + |pre|)
  {
  }

  /** Appending what one pass adds to both sides of a listing. */
  lemma AppendListed(base: seq<Carrier>, pre: seq<Carrier>, added: seq<Carrier>, before: seq<Carrier>, after: seq<Carrier>, whole: seq<Carrier>)
    requires before == base + pre && after == before + added && whole == pre + added
    ensures after == base + whole
  {
  }

  /** So `XMCIDecoder` for LTE appends to `BandList` exactly the carriers of
      the acceptable records before the first that throws, numbered 1, 2,
      ..., and throws exactly when some record's PCI or EARFCN does not
      parse. */
  lemma {:induction false} XmciLteCarriers(f: Fields, matches: seq<Match>, bwcodes: seq<int>)
    ensures XmciDecoded(f, matches, 4, bwcodes).fields.bandList == f.bandList + ListingOf(LteVerdicts(matches), 1)
    ensures XmciDecoded(f, matches, 4, bwcodes).failure.Some? <==> ThrownIn(LteVerdicts(matches))
  {
    ScanLteCarriers(Start(f), matches, bwcodes, LteVerdicts(matches));
  }

  /** A UMTS record the loop turns into a carrier: it matched, it has its
      five groups, PSC and UARFCN parse as hexadecimal, RSCP and EcNo as
      `int`, and CGI as a hexadecimal `long`. */
  predicate UmtsAcceptable(m: Match) {
    && m.success && HasUmtsGroups(m)
    && ParseHex32(m.groups["PSC"]).Some? && ParseHex32(m.groups["UARFCN"]).Some?
    && ParseInt32(m.groups["RSCP"]).Some? && ParseInt32(m.groups["ECNO"]).Some?
    && ParseHex64(m.groups["CGI"]).Some?
  }

  /** A UMTS record advances `idx` exactly when it is acceptable, and then
      the loop goes on from `UmtsAccepted` of its parsed numbers. */
  lemma {:induction false} UmtsAccepts(s: Scan, m: Match, bwcodes: seq<int>)
    ensures Step(s, m, 3, bwcodes).scan.idx == s.idx + 1 <==> UmtsAcceptable(m)
    ensures UmtsAcceptable(m) ==>
      Step(s, m, 3, bwcodes) ==
        Running(UmtsAccepted(s, bwcodes, ParseHex32(m.groups["PSC"]).value,
                             ParseHex32(m.groups["UARFCN"]).value,
                             ParseInt32(m.groups["RSCP"]).value, ParseInt32(m.groups["ECNO"]).value,
                             ParseHex64(m.groups["CGI"]).value))
  {
    if m.success && HasUmtsGroups(m) {
      assert Step(s, m, 3, bwcodes) == UmtsStep(s, m, bwcodes);
      var psc := ParseHex32(m.groups["PSC"]);
      var uarfcn := ParseHex32(m.groups["UARFCN"]);
      var rscp := ParseInt32(m.groups["RSCP"]);
      var ecno := ParseInt32(m.groups["ECNO"]);
      var cgi := ParseHex64(m.groups["CGI"]);
    }
  }

  /** `cgi % 0x1_0000` is the value of the low 16 bits of `cgi`. */
  lemma {:induction false} LowBits16(cgi: int)
    ensures 0 <= cgi % 0x1_0000 < 0x1_0000 && (cgi - cgi % 0x1_0000) % 0x1_0000 == 0
  {
  }

  /** What an accepted UMTS record adds: exactly one carrier numbered `idx`,
      whose cell identity is the low 16 bits of the CGI, with its PSC, the
      range band of its UARFCN, the UARFCN, RSCP raw - 120 for the
      non-negative readings the pattern captures, and EcNo raw / 2.0 - 24
      in tenths of a dB; `UARFCN` is written only for `idx` 0. */
  lemma {:induction false} UmtsCarrierFigures(s: Scan, bwcodes: seq<int>, psc: int, uarfcn: int, rawRscp: int, rawEcno: int, cgi: int)
    requires IsInt32(psc) && IsInt32(uarfcn) && IsInt32(rawRscp) && IsInt32(rawEcno) && IsInt64(cgi)
    ensures UmtsAccepted(s, bwcodes, psc, uarfcn, rawRscp, rawEcno, cgi).idx == s.idx + 1
    ensures UmtsAccepted(s, bwcodes, psc, uarfcn, rawRscp, rawEcno, cgi).uarfcn ==
      if s.idx == 0 then IntText(uarfcn) else s.uarfcn
    ensures UmtsAccepted(s, bwcodes, psc, uarfcn, rawRscp, rawEcno, cgi).carriers ==
      s.carriers + [UmtsCarrier(s.idx, cgi % 0x1_0000, psc, UmtsBandOf(uarfcn), uarfcn,
                                Wrap32(rawRscp - 120), 5 * rawEcno - 240)]
    ensures 0 <= cgi % 0x1_0000 < 0x1_0000 && (cgi - cgi % 0x1_0000) % 0x1_0000 == 0
    ensures rawRscp >= 0 ==> Wrap32(rawRscp - 120) == rawRscp - 120
    ensures 2 * (5 * rawEcno - 240) == 10 * rawEcno - 480
  {
    GetBandUmtsOfInt(uarfcn);
    LowBits16(cgi);
  }

  // ---------------------------------------------------------- SendCommand

  /** The replies one `SendCommand` cycle reads, already matched:
      - `simReady`: the `+CPIN: SIM PIN` pattern matched;
      - `temperature`: the text of the `+MTSM` match (empty when none);
      - `cops`, `csqSignal`: the groups of the `+COPS` and `+CSQ` matches;
      - `timingAdvance`, `bandwidths`: the `ta` group of `+XCCINFO` and the
        `bwlist` group of `+XLEC` (empty when the pattern did not match);
      - `ratType`: the `Type` group of the first `+XMCI: 3` / `+XMCI: 4`;
      - `lteLines`, `umtsLines`: the matches of the two `+XMCI` patterns;
      - `rssiText`: the printed RSSI estimate for the serving cell. */
  datatype Replies = Replies(
    simReady: bool,
    temperature: string,
    cops: Option<CopsMatch>,
    csqSignal: Option<string>,
    timingAdvance: string,
    bandwidths: string,
    ratType: Option<string>,
    lteLines: seq<Match>,
    umtsLines: seq<Match>,
    rssiText: string)

  /** `Select(parse)` over the pieces, materialised: None when `parse`
      rejects any piece. */
  function ParseEach(pieces: seq<string>, parse: string -> Option<int>): Option<seq<int>>
    decreases |pieces|
  {
    if |pieces| == 0 then Some([])
    else
      var head := parse(pieces[0]);
      var rest := ParseEach(pieces[1..], parse);
      if head.None? || rest.None? then None else Some([head.value] + rest.value)
  }

  /** `Select(int.Parse).ToArray()` over the pieces. */
  function ParseAll(pieces: seq<string>): Option<seq<int>> {
    ParseEach(pieces, ParseInt32)
  }

  /** `ParseAll` succeeds exactly when every piece is an `int`, and then
      holds those `int`s in order. */
  lemma ParseAllMeaning(pieces: seq<string>)
    ensures ParseAll(pieces).Some? <==> forall k :: 0 <= k < |pieces| ==> ParseInt32(pieces[k]).Some?
    ensures ParseAll(pieces).Some? ==>
      && |ParseAll(pieces).value| == |pieces|
      && forall k :: 0 <= k < |pieces| ==> ParseInt32(pieces[k]) == Some(ParseAll(pieces).value[k])
  {
    ParseEachSucceeds(pieces, ParseInt32);
    if ParseAll(pieces).Some? {
      ParseEachValues(pieces, ParseInt32);
    }
  }

  lemma {:induction false} ParseEachSucceeds(pieces: seq<string>, parse: string -> Option<int>)
    ensures ParseEach(pieces, parse).Some? <==> forall k :: 0 <= k < |pieces| ==> parse(pieces[k]).Some?
    decreases |pieces|
  {
    if |pieces| > 0 {
      var tail := pieces[1..];
      ParseEachSucceeds(tail, parse);
      forall k | 1 <= k < |pieces|
        ensures pieces[k] == tail[k - 1]
      {
      }
    }
  }

  lemma {:induction false} ParseEachValues(pieces: seq<string>, parse: string -> Option<int>)
    requires ParseEach(pieces, parse).Some?
    ensures |ParseEach(pieces, parse).value| == |pieces|
    ensures forall k :: 0 <= k < |pieces| ==> parse(pieces[k]) == Some(ParseEach(pieces, parse).value[k])
    decreases |pieces|
  {
    if |pieces| > 0 {
      var tail := pieces[1..];
      ParseEachValues(tail, parse);
      var v := ParseEach(pieces, parse).value;
      assert v == [parse(pieces[0]).value] + ParseEach(tail, parse).value;
      forall k | 1 <= k < |pieces|
        ensures parse(pieces[k]) == Some(v[k])
      {
        assert pieces[k] == tail[k - 1] && v[k] == ParseEach(tail, parse).value[k - 1];
      }
    }
  }

  /** The technology gate: the `+XMCI` type must be present, an `int`, and 2
      or 4. */
  function RatGate(ratType: Option<string>): (rat: Option<int>)
    ensures rat.Some? ==> rat.value == 2 || rat.value == 4
    ensures rat.Some? <==> ratType.Some? && ParseInt32(ratType.value) in {Some(2), Some(4)}
  {
    match ratType
    case None => None
    case Some(t) =>
      match ParseInt32(t)
      case Some(v) => if v == 2 || v == 4 then Some(v) else None
      case None => None
  }

  /** The type pattern admits only `3` and `4`, and of these the gate lets
      only `4` through: a UMTS report never gets past it. */
  lemma OnlyLteSurvives(t: string)
    requires t == "3" || t == "4"
    ensures RatGate(Some(t)).Some? <==> t == "4"
    ensures RatGate(Some(t)).Some? ==> RatGate(Some(t)).value == 4
  {
    if t == "3" {
      ParseIntText(3);
      assert IntText(3) == "3";
    } else {
      ParseIntText(4);
      assert IntText(4) == "4";
    }
  }

  /** `GetXMCILines`: the matches of the pattern for the technology, an
      exception when there are none or the technology is neither 3 nor 4. */
  function XmciLines(r: Replies, rat: int): (lines: Attempt<seq<Match>>)
    ensures lines.Ok? ==> |lines.value| > 0
    ensures lines.Ok? <==> (rat == 4 && |r.lteLines| > 0) || (rat == 3 && |r.umtsLines| > 0)
  {
    if rat == 4 then
      if |r.lteLines| == 0 then Err(XmciUnmatched) else Ok(r.lteLines)
    else if rat == 3 then
      if |r.umtsLines| == 0 then Err(XmciUnmatched) else Ok(r.umtsLines)
    else Err(NotImplemented)
  }

  /** The result of an operation that can throw. */
  datatype Attempt<T> = Ok(value: T) | Err(failure: Failure)

  /** One `SendCommand` cycle: the SIM check, the temperature on a GL860,
      `DecoderCOPS`, `DecoderCSQ`, the timing advance and bandwidth list,
      the technology gate, `GetXMCILines`, `bwcodes[0]`, `DecoderXS` and
      `XMCIDecoder`, in that order; the first exception ends the cycle with
      the fields written so far. */
  function Poll(f: Fields, isGL860: bool, r: Replies): Outcome {
    if !r.simReady then Outcome(f, Some(NoSim))
    else
      var f1 := if isGL860 then f.(temp := r.temperature) else f;
      var cops := CopsUpdate(f1, r.cops);
      if cops.failure.Some? then cops
      else
        var csq := CsqUpdate(cops.fields, r.csqSignal);
        if csq.failure.Some? then csq
        else PollAfterCsq(csq.fields, r)
  }

  /** The part of the cycle after `DecoderCSQ`: the timing advance and the
      bandwidth codes must parse. */
  function PollAfterCsq(f: Fields, r: Replies): Outcome {
    var ta := ParseInt32(r.timingAdvance);
    var bwcodes := ParseAll(SplitNonEmpty(r.bandwidths, ','));
    if ta.None? || bwcodes.None? then Outcome(f, Some(ParseError))
    else PollGated(f, r, ta.value, bwcodes.value)
  }

  /** The technology gate, `GetXMCILines` and `bwcodes[0]`. */
  function PollGated(f: Fields, r: Replies, ta: int, bwcodes: seq<int>): Outcome {
    var rat := RatGate(r.ratType);
    if rat.None? then Outcome(f, Some(UnknownNetworkType))
    else
      var lines := XmciLines(r, rat.value);
      if lines.Err? then Outcome(f, Some(lines.failure))
      else if |bwcodes| == 0 then Outcome(f, Some(IndexOutOfRange))
      else PollDecoded(f, r, ta, bwcodes, rat.value, lines.value)
  }

  /** `DecoderXS` on the first record, then `XMCIDecoder` on all of them. */
  function PollDecoded(f: Fields, r: Replies, ta: int, bwcodes: seq<int>, rat: int, lines: seq<Match>): Outcome
    requires |bwcodes| > 0 && |lines| > 0
  {
    var xs := XsUpdate(f, bwcodes[0], ta, rat, lines[0], r.rssiText);
    if xs.failure.Some? then xs
    else XmciDecoded(xs.fields, lines, rat, bwcodes)
  }

  /** The replies that get a cycle past `DecoderCSQ` and the timing advance
      and reach the technology gate with an LTE report. */
  predicate ReachesLteGate(r: Replies) {
    && r.simReady && r.cops.Some? && r.csqSignal.Some?
    && ParseInt32(r.csqSignal.value).Some?
    && ParseInt32(r.timingAdvance).Some?
    && r.ratType == Some("4")
    && |r.lteLines| > 0
  }

  /** A cycle that completes had an LTE report: type 2 passes the gate but
      `GetXMCILines` has no pattern for it. */
  lemma PollCompletesOnlyForLte(f: Fields, isGL860: bool, r: Replies)
    requires Poll(f, isGL860, r).failure.None?
    ensures r.ratType.Some? && ParseInt32(r.ratType.value) == Some(4)
  {
    var csq := CsqUpdate(CopsUpdate(if isGL860 then f.(temp := r.temperature) else f, r.cops).fields, r.csqSignal);
    assert Poll(f, isGL860, r) == PollAfterCsq(csq.fields, r);
    AfterCsqCompletesOnlyForLte(csq.fields, r);
  }

  lemma AfterCsqCompletesOnlyForLte(f: Fields, r: Replies)
    requires PollAfterCsq(f, r).failure.None?
    ensures r.ratType.Some? && ParseInt32(r.ratType.value) == Some(4)
  {
    var ta := ParseInt32(r.timingAdvance).value;
    var bwcodes := ParseAll(SplitNonEmpty(r.bandwidths, ',')).value;
    GatedCompletesOnlyForLte(f, r, ta, bwcodes);
  }

  lemma GatedCompletesOnlyForLte(f: Fields, r: Replies, ta: int, bwcodes: seq<int>)
    requires PollGated(f, r, ta, bwcodes).failure.None?
    ensures r.ratType.Some? && ParseInt32(r.ratType.value) == Some(4)
  {
    var rat := RatGate(r.ratType);
    if rat.None? {
      assert false;
    } else if XmciLines(r, rat.value).Err? {
      assert false;
    }
  }

  /** The fields `DecoderCOPS` and `DecoderCSQ` leave for the rest of the
      cycle. */
  function CsqFields(f: Fields, isGL860: bool, r: Replies): Fields {
    CsqUpdate(CopsUpdate(if isGL860 then f.(temp := r.temperature) else f, r.cops).fields, r.csqSignal).fields
  }

  /** Replies that reach the technology gate get past `DecoderCSQ` without
      touching the carrier list or the band summary. */
  lemma ReachesAfterCsq(f: Fields, isGL860: bool, r: Replies)
    requires ReachesLteGate(r)
    ensures Poll(f, isGL860, r) == PollAfterCsq(CsqFields(f, isGL860, r), r)
    ensures CsqFields(f, isGL860, r).bandList == f.bandList && CsqFields(f, isGL860, r).band == f.band
  {
    var f1 := if isGL860 then f.(temp := r.temperature) else f;
    CopsEffect(f1, r.cops);
    CsqEffect(CopsUpdate(f1, r.cops).fields, r.csqSignal);
  }

  /** `DecoderXS` writes neither the carrier list nor the band summary. */
  lemma XsKeepsCarriers(f: Fields, bwcode: int, ta: int, rat: int, line: Match, rssiText: string)
    ensures var o := XsUpdate(f, bwcode, ta, rat, line, rssiText);
      o.fields.bandList == f.bandList && o.fields.band == f.band
  {
    if rat == 4 {
      LteParsedKeeps(f, bwcode, ta, rssiText, ConvertHex32(GroupValue(line, "EARFCN")),
                     ParseInt32(GroupValue(line, "RSRP")), ParseInt32(GroupValue(line, "RSRQ")),
                     ParseInt32(GroupValue(line, "SINR")));
    } else if rat == 3 {
      UmtsParsedKeeps(f, ta, ParseInt32(GroupValue(line, "UARFCN")), ParseInt32(GroupValue(line, "RSSI")),
                      ParseInt32(GroupValue(line, "RSCP")), ParseInt32(GroupValue(line, "ECNO")));
    }
  }

  lemma LteParsedKeeps(f: Fields, bwcode: int, ta: int, rssiText: string,
                       earf: Option<int>, rsrp: Option<int>, rsrq: Option<int>, sinr: Option<int>)
    ensures var o := XsLteParsed(f, bwcode, ta, rssiText, earf, rsrp, rsrq, sinr);
      o.fields.bandList == f.bandList && o.fields.band == f.band
  {
  }

  lemma UmtsParsedKeeps(f: Fields, ta: int, uarfcn: Option<int>, rssi: Option<int>, rscp: Option<int>, ecno: Option<int>)
    ensures var o := XsUmtsParsed(f, ta, uarfcn, rssi, rscp, ecno);
      o.fields.bandList == f.bandList && o.fields.band == f.band
  {
  }

  /** An empty `+XLEC` bandwidth list (nothing but commas) makes
      `bwcodes[0]` throw once the report got past the gate. */
  lemma PollEmptyBandwidths(f: Fields, isGL860: bool, r: Replies)
    requires ReachesLteGate(r) && AllIn(r.bandwidths, {','})
    ensures Poll(f, isGL860, r).failure == Some(IndexOutOfRange)
  {
    ReachesAfterCsq(f, isGL860, r);
    SplitOnlySeparators(r.bandwidths, ',');
    assert ParseAll(SplitNonEmpty(r.bandwidths, ',')) == Some([]);
    GatedEmptyBandwidths(CsqFields(f, isGL860, r), r, ParseInt32(r.timingAdvance).value);
  }

  lemma GatedEmptyBandwidths(g: Fields, r: Replies, ta: int)
    requires r.ratType == Some("4") && |r.lteLines| > 0
    ensures PollGated(g, r, ta, []).failure == Some(IndexOutOfRange)
  {
    OnlyLteSurvives("4");
  }

  /** With replies as the patterns shape them, an LTE cycle updates the
      serving cell and then throws in `XMCIDecoder` at the first record's
      `0x`-prefixed PCI: `BandList` and `Band` are never written. */
  lemma PollStopsAtPrefixedPci(f: Fields, isGL860: bool, r: Replies, h: string)
    requires ReachesLteGate(r)
    requires |SplitNonEmpty(r.bandwidths, ',')| > 0
    requires ParseAll(SplitNonEmpty(r.bandwidths, ',')).Some?
    requires r.lteLines[0].success && HasLteGroups(r.lteLines[0])
    requires |h| > 0 && AllHexDigits(h) && r.lteLines[0].groups["PCI"] == "0x" + h
    ensures var o := Poll(f, isGL860, r);
      o.failure == Some(ParseError) && o.fields.bandList == f.bandList && o.fields.band == f.band
  {
    ReachesAfterCsq(f, isGL860, r);
    ParseAllMeaning(SplitNonEmpty(r.bandwidths, ','));
    var bwcodes := ParseAll(SplitNonEmpty(r.bandwidths, ',')).value;
    GatedStopsAtPrefixedPci(CsqFields(f, isGL860, r), r, ParseInt32(r.timingAdvance).value, bwcodes, h);
  }

  lemma GatedStopsAtPrefixedPci(g: Fields, r: Replies, ta: int, bwcodes: seq<int>, h: string)
    requires r.ratType == Some("4") && |r.lteLines| > 0 && |bwcodes| > 0
    requires r.lteLines[0].success && HasLteGroups(r.lteLines[0])
    requires |h| > 0 && AllHexDigits(h) && r.lteLines[0].groups["PCI"] == "0x" + h
    ensures var o := PollGated(g, r, ta, bwcodes);
      o.failure == Some(ParseError) && o.fields.bandList == g.bandList && o.fields.band == g.band
  {
    OnlyLteSurvives("4");
    assert PollGated(g, r, ta, bwcodes) == PollDecoded(g, r, ta, bwcodes, 4, r.lteLines);
    var xs := XsUpdate(g, bwcodes[0], ta, 4, r.lteLines[0], r.rssiText);
    XsKeepsCarriers(g, bwcodes[0], ta, 4, r.lteLines[0], r.rssiText);
    if xs.failure.None? {
      XmciPrefixedPciAborts(xs.fields, r.lteLines, bwcodes, h);
    }
  }
}
