# Fibocom modem monitor: the `AtHost` decoders

FibocomMonitor polls a Fibocom cellular modem over a serial port with AT
commands and shows what the modem reports: operator, registration type,
signal quality, serving-cell figures (RSRP, RSRQ, SINR, RSSI for LTE; RSCP,
EcNo, RSSI for UMTS), the distance implied by the timing advance, and one
line per aggregated carrier with its band. `AtHost` turns the modem's text
replies into the fields of a `Data` record. This project models that decoder
half of `AtHost` and proves what it does:

- `Snapshot`: the `Data` record as a class with one mutable field per
  property, its value view `Fields`, and `Clear`.
- `Bands`: the LTE breakpoint table of `GetBandLte` (71 ascending upper
  bounds), the five inclusive UMTS ranges of `GetBandUMTS`, the channel-text
  normalisation both share (trim white space, trim quotes, hexadecimal after
  `0x` / `0X`, signed decimal otherwise), `GetBandwidthFrequency` in tenths
  of a MHz, and the resource-block table of `ConvertRsrpToRssi`.
- `Decoders`: each decoder as a pure function from the old fields and the
  reply's regex groups to the new fields and the exception raised, if any
  (`DecoderCOPS`, `DecoderCSQ`, `DecoderXS`, the `XMCIDecoder` loop as a
  fold over the matches, and the whole `SendCommand` cycle as `Poll`).
- `At`: the class `AtHost`, whose methods update `Result` field by field as
  the source does, each proved to produce exactly what the matching
  `Decoders` function says; `XmciDecoder` keeps the source's `for` loop, its
  `idx` counter and its `bandAccum` text, with a loop invariant tying them
  to the fold.
- `NumberText` and `MachineInt`: the .NET primitives the decoders depend
  on, modelled on the .NET parsing and arithmetic rules: `Int32.Parse` / `TryParse` with the `Integer` and
  `HexNumber` styles, `Int64.Parse` with `HexNumber`, `Convert.ToInt32(s,
  16)`, `Int32.ToString()`, `Trim`, `Split(..., RemoveEmptyEntries)`, 32- and
  64-bit wrap-around, truncating `/`, and `(x << 8) | y`.

What the code does, as written, that the model reproduces and proves:

- The `+XMCI` type pattern admits only `3` and `4`, but the gate in
  `SendCommand` only lets `2` and `4` through, so only LTE reports get past
  it (`Decoders.OnlyLteSurvives`, `Decoders.PollCompletesOnlyForLte`).
- `XMCIDecoder` starts `idx` at 1, so its `idx == 0` branch, the only place
  it writes `UARFCN`, is dead (`Decoders.ScanGrows`, `Decoders.XmciKeepsUarfcn`).
- The serving-cell RSCP is raw - 121 (`DecoderXS`) while each listed
  carrier's RSCP is raw - 120 (`XMCIDecoder`) (`Decoders.RscpOffsetsDiffer`).
- UARFCN is read as hexadecimal in `XMCIDecoder` but as decimal in
  `DecoderXS`, so a `0x`-prefixed UARFCN reaching `DecoderXS` throws
  (`Decoders.XsUmtsHexUarfcn`).
- A bandwidth list with no codes makes `bwcodes[0]` throw
  (`Decoders.PollEmptyBandwidths`).
- Both `+XMCI` record patterns capture PCI / PSC / EARFCN / UARFCN with
  their `0x` prefix, and `int.Parse(..., NumberStyles.HexNumber)` rejects a
  prefix. So every record the LTE pattern yields makes `XMCIDecoder` throw
  on its first record, and `BandList` and `Band` are never written
  (`Decoders.LtePrefixedPciAborts`, `Decoders.PollStopsAtPrefixedPci`).
  For the same reason the eNodeB group never parses and the LTE cell
  identity is always 0 (`Decoders.LteCellIdValue`).
- The UMTS record pattern has no `RSSI` group, yet `DecoderXS` reads
  `Groups["RSSI"]` for `rat == 3`, so `int.Parse` of the empty text throws on
  every UMTS serving record (`Decoders.XsUmtsMissingRssi`). That pattern also
  matches only `+XMCI: 2` records, although `GetXMCILines` applies it when
  `rat == 3`.

`GetBandUMTS` uses five inclusive, non-adjacent ranges tried in order
(`Bands.UmtsBandOf`). A record whose PCI, EARFCN, PSC, UARFCN or CGI does
not parse ends the whole loop rather than being skipped: the cycle ends;
`SendCommand` catches the exception and closes the port
(`Decoders.AbortAbsorbs`, `At.AtHost.SendCommand`).

## Model

| member | source | states |
|---|---|---|
| Snapshot.Data.constructor | FibocomMonitor/AT.cs:8-24 | a new record has every text property empty and no carriers |
| Snapshot.Data.Clear | FibocomMonitor/AT.cs:26-31 | every one of the fourteen text properties is empty afterwards and `BandList` is emptied, whatever they held |
| Snapshot.Data.ClearFigures | FibocomMonitor/AT.cs:28 | the radio figures and `Band` become empty; the other eight fields keep their values (the source clears all fourteen in one chained assignment; this half exists only to keep the proof of `Clear` small) |
| Snapshot.Data.ClearRest | FibocomMonitor/AT.cs:28-30 | the remaining seven texts become empty and the list is emptied; the first seven keep their values (the second half of that chained assignment, split off only for the proof) |
| MachineInt.Wrap32 | FibocomMonitor/AT.cs:160 | unchecked `int` arithmetic: the result is an `int`, congruent to the exact value modulo 2^32, and equal to it when it fits |
| MachineInt.Quot | FibocomMonitor/AT.cs:161 | C# `/` truncates toward zero: the remainder has the sign of the dividend and is smaller than the divisor |
| MachineInt.ShiftOr8Arithmetic | FibocomMonitor/AT.cs:168 | `(x << 8)` OR `y` equals `x * 256 + y` for an `x` below 2^23 and a `y` below 256 |
| NumberText.Trim | FibocomMonitor/AT.cs:450 | `String.Trim`: drops the given characters from both ends; its promise is `TrimPadded` |
| NumberText.ParseInt32 | FibocomMonitor/AT.cs:155 | `int.Parse` / `int.TryParse` with the `Integer` style: optional white space, an optional sign, decimal digits, a value that fits 32 bits; the result is an `int`, and `ParseIntText` and `PrefixRejected` state its round trip and its rejections |
| NumberText.ParseHex32 | FibocomMonitor/AT.cs:152 | `int.Parse(..., HexNumber)`: hex digits, optionally surrounded by white space, without sign or prefix, read as a 32-bit two's complement value; the result is an `int`, and `PrefixRejected` states that a `0x` text is refused |
| NumberText.ParseHex64 | FibocomMonitor/AT.cs:195 | `long.Parse(..., HexNumber)` in 64 bits; the result is a `long`, and `PrefixRejected` states that a `0x` text is refused |
| NumberText.ConvertHex32 | FibocomMonitor/AT.cs:235 | `Convert.ToInt32(s, 16)`: an optional `0x` / `0X`, then hex digits; the result is an `int`, and `ConvertHexText` states its round trip |
| NumberText.IntText | FibocomMonitor/AT.cs:162 | `int.ToString()` in the invariant culture; never empty, and `ParseIntText` states that it reads back |
| NumberText.ParseIntText | FibocomMonitor/AT.cs:162 | `int.Parse` of what `int.ToString()` printed gives back the same `int` |
| NumberText.PrefixRejected | FibocomMonitor/AT.cs:152-153 | `int.Parse` and `long.Parse`, decimal or `HexNumber`, reject any text starting with `0x` / `0X` |
| NumberText.ConvertHexText | FibocomMonitor/AT.cs:235 | `Convert.ToInt32(s, 16)` accepts a `0x` / `0X` prefix and yields the two's complement value of the hex digits |
| NumberText.SplitNonEmpty | FibocomMonitor/AT.cs:91 | `Split(',', RemoveEmptyEntries)` yields only non-empty pieces that contain no comma; with `SplitSingle` and `SplitConcat` this fixes every split as the maximal comma-free runs, in order |
| NumberText.SplitSingle | FibocomMonitor/AT.cs:91 | a non-empty text without a comma is one piece, itself |
| NumberText.SplitConcat | FibocomMonitor/AT.cs:91 | splitting `a + "," + b` gives the pieces of `a` followed by the pieces of `b` |
| NumberText.SplitOnlySeparators | FibocomMonitor/AT.cs:91 | a text of nothing but commas splits into no pieces |
| NumberText.TrimPadded | FibocomMonitor/AT.cs:450 | `Trim` removes exactly the padding around a text whose two ends are not padding characters |
| Bands.LteBandOf | FibocomMonitor/AT.cs:495-567 | the chain of `channel < bound` tests as a lookup in the 71-entry table; `LteFirstBreakpoint`, `LteBelowFirstBound` and `LteUnallocated` state what it answers |
| Bands.GetBandLte | FibocomMonitor/AT.cs:475-568 | `GetBandLte` on a text: `--` for blank or unparsable text, otherwise the table band of the channel; `Channel`, `ChannelDecimal`, `ChannelHex` and `GetBandLteOfInt` state it |
| Bands.GetBandUmts | FibocomMonitor/AT.cs:445-472 | `GetBandUMTS` on a text: `--` for blank or unparsable text, otherwise the range band of the channel; `UmtsBandOf` and `GetBandUmtsOfInt` state it |
| Bands.LteFirstBreakpoint | FibocomMonitor/AT.cs:495-565 | a channel from the bound of entry i-1 (inclusive) to the bound of entry i (exclusive) gets entry i's label |
| Bands.LteBelowFirstBound | FibocomMonitor/AT.cs:495 | every channel below 600, negative ones included, is band 1 |
| Bands.LteUnallocated | FibocomMonitor/AT.cs:495-567 | a channel is labelled `--` exactly when it lies in one of the five gaps or at or above 70646 |
| Bands.LteUnallocatedEntries | FibocomMonitor/AT.cs:506-550 | exactly entries 11, 15, 22, 33 and 55 of the table are `--` |
| Bands.UmtsBandOf | FibocomMonitor/AT.cs:465-471 | each of B1, B2, B5, B8, B19 is given exactly on its inclusive range, `--` exactly outside all five |
| Bands.Channel | FibocomMonitor/AT.cs:447-463 | blank text gives no channel (the lookup answers `--`); a parsed channel is an `int` |
| Bands.StripPadding | FibocomMonitor/AT.cs:450 | trimming white space and then quotes from padded text leaves the text itself |
| Bands.ChannelDecimal | FibocomMonitor/AT.cs:480-493 | a decimal channel, however padded with white space and quotes, reads back as itself |
| Bands.ChannelHex | FibocomMonitor/AT.cs:480-488 | a `0x`/`0X` hex channel of up to 32 bits, however padded, reads back as its two's complement value |
| Bands.GetBandLteOfInt | FibocomMonitor/AT.cs:162 | `GetBandLte(earfcn.ToString())` is the table band of that `int` |
| Bands.GetBandUmtsOfInt | FibocomMonitor/AT.cs:204 | `GetBandUMTS(uarfcn.ToString())` is the range band of that `int` |
| Bands.BandwidthTenths | FibocomMonitor/AT.cs:407-416 | a code gives a nonzero bandwidth exactly when it is 0 to 5 |
| Bands.ResourceBlocks | FibocomMonitor/AT.cs:388-397 | a code gives a nonzero resource-block count exactly when it is 0 to 5 |
| Bands.BandwidthBlocks | FibocomMonitor/AT.cs:388-416 | the two tables agree: tenths of a MHz are twice the blocks from code 1 up, 1.4 MHz carries 6 blocks, and both are 0 for the same codes |
| Bands.MHzTexts | FibocomMonitor/AT.cs:173 | the summary prints the bandwidth codes 0 to 5 as `1.4`, `3`, `5`, `10`, `15` and `20` |
| Bands.MHzTextUnknown | FibocomMonitor/AT.cs:173 | any code outside 0 to 5 prints as `0` |
| Decoders.NetworkStatus | FibocomMonitor/AT.cs:269-278 | each label is given exactly for its type codes, `Unknown` exactly for every other code |
| Decoders.CopsUpdate | FibocomMonitor/AT.cs:263-284 | `DecoderCOPS` as a function of the old fields and the match; `CopsEffect` states its effect |
| Decoders.CopsEffect | FibocomMonitor/AT.cs:263-284 | throws exactly when the pattern did not match, then changing nothing; otherwise only `Operator` and `StatusNetwork` change, to the group and its label |
| Decoders.SignalPercent | FibocomMonitor/AT.cs:222 | signal 0..31 gives 0..100, 31 gives 100, and without wrap-around the result is the truncated `100 * sg / 31` |
| Decoders.SignalPercentMonotone | FibocomMonitor/AT.cs:222 | the percentage never decreases as the signal grows, over the range without wrap-around |
| Decoders.SignalPercentWraps | FibocomMonitor/AT.cs:222 | past 21474836 the 32-bit product wraps and the percentage is negative |
| Decoders.CsqUpdate | FibocomMonitor/AT.cs:217-229 | `DecoderCSQ` as a function of the old fields and the signal group; `CsqEffect` and `CsqDigits` state its effect |
| Decoders.CsqEffect | FibocomMonitor/AT.cs:217-229 | succeeds exactly when the pattern matched and the group is an `int`; only `SignalStrength` changes; a failure changes nothing |
| Decoders.CsqDigits | FibocomMonitor/AT.cs:219-223 | a pattern-shaped signal 0..31 decodes to a percentage from 0 to 100 followed by ` %` |
| Decoders.RoundHalfEven | FibocomMonitor/AT.cs:260 | `Math.Round` to the nearest integer, a tie going to the even one |
| Decoders.DistanceMetres | FibocomMonitor/AT.cs:260 | the distance is within half a metre of 78.125 m per timing-advance step |
| Decoders.DistanceTexts | FibocomMonitor/AT.cs:260 | sample distances print as `0.078 km`, `0.312 km`, `0.938 km`, `0.781 km` and `10 km` |
| Decoders.XsUpdate | FibocomMonitor/AT.cs:231-261 | `DecoderXS` as a function of the old fields, the bandwidth code, the timing advance, the type and the record; `XsLte`, `XsUmts`, `XsDistance`, `XsKeepsCarriers`, `XsUmtsMissingRssi` and `XsUmtsHexUarfcn` state its effect |
| Decoders.XsDistance | FibocomMonitor/AT.cs:259-260 | `Distance` is written exactly when the timing advance is positive and nothing threw |
| Decoders.XsLte | FibocomMonitor/AT.cs:233-246 | a pattern-shaped LTE record sets RSRP raw-141, RSRQ raw/2-20, SINR raw/2, EARFCN the hex value and RSSI, and changes nothing else but the distance |
| Decoders.LteFigures | FibocomMonitor/AT.cs:236-243 | for non-negative readings no subtraction wraps, and the LTE serving-cell texts are the plain offsets |
| Decoders.XsUmts | FibocomMonitor/AT.cs:247-258 | a decimal UMTS record that has an `RSSI` group decodes without exception into the UMTS serving-cell fields and the distance, and changes nothing else; the UMTS record pattern never yields that group, so `XsUmtsMissingRssi` is what happens to a matched record |
| Decoders.XsUmtsMissingRssi | FibocomMonitor/AT.cs:250 | a record without an `RSSI` group makes `DecoderXS` throw `int.Parse("")` for UMTS before writing any field |
| Decoders.UmtsFigures | FibocomMonitor/AT.cs:249-257 | the UMTS serving-cell texts of non-negative readings: RSSI raw-111, RSCP raw-121, EcNo raw/2-24 |
| Decoders.RscpOffsetsDiffer | FibocomMonitor/AT.cs:198 | a listed UMTS carrier's RSCP is raw-120, one more than the raw-121 that `DecoderXS` shows for the same reading |
| Decoders.XsUmtsHexUarfcn | FibocomMonitor/AT.cs:249 | a `0x`-prefixed UARFCN makes `DecoderXS` throw before writing any field |
| Decoders.XsKeepsCarriers | FibocomMonitor/AT.cs:231-261 | `DecoderXS` writes neither `BandList` nor `Band` |
| Decoders.BwCode | FibocomMonitor/AT.cs:172 | `bwcodes[idx]` in range, the last code past the end, 0 for an empty list |
| Decoders.LteCellId | FibocomMonitor/AT.cs:164-169 | the LTE cell identity `(eNodeB << 8)` OR `pci`; `LteCellIdValue` states its value |
| Decoders.LteStep | FibocomMonitor/AT.cs:144-176 | the `rat == 4` loop body for one record; `LteAccepts`, `LteSkipped`, `LtePrefixedPciAborts` and `StepEffect` state what it does |
| Decoders.LteAccepted | FibocomMonitor/AT.cs:160-176 | the tail of the LTE body once every number parsed; `LteCarrierFigures` states the carrier it appends and `LteAcceptedPart` its summary part |
| Decoders.UmtsStep | FibocomMonitor/AT.cs:178-208 | the `rat == 3` loop body for one record; `UmtsAccepts`, `UmtsPrefixedPscAborts` and `StepEffect` state what it does |
| Decoders.UmtsAccepted | FibocomMonitor/AT.cs:196-208 | the tail of the UMTS body once every number parsed; `UmtsCarrierFigures` states the carrier it appends and `UmtsAcceptedPart` its summary part |
| Decoders.LteVerdictOf | FibocomMonitor/AT.cs:141-176 | what the LTE loop makes of one record: it throws exactly when the record matched with its four groups and its PCI or EARFCN is not hexadecimal, and lists a carrier exactly when all four numbers parse |
| Decoders.LteAccepts | FibocomMonitor/AT.cs:144-176 | an LTE record advances `idx` exactly when it matched, has its four groups and all four numbers parse, throws exactly when PCI or EARFCN does not parse, and an accepted record continues the loop from `LteAccepted` of its parsed numbers |
| Decoders.LteCarrierFigures | FibocomMonitor/AT.cs:152-176 | an accepted LTE record appends exactly one carrier: number `idx`, cell identity, PCI, the table band of its EARFCN, the EARFCN, RSRP raw-141 and RSRQ raw/2-20 (plain offsets for non-negative readings); `idx` advances and `UARFCN` stays |
| Decoders.LteStepVerdict | FibocomMonitor/AT.cs:141-211 | one LTE pass appends exactly the carrier of its record's verdict, numbered `idx`, advances `idx` by the number appended, and throws exactly for a throwing verdict |
| Decoders.ScanLteCarriers | FibocomMonitor/AT.cs:138-212 | the LTE loop over any records appends exactly the listed carriers of the records before the first throw, in order and numbered consecutively from the starting `idx`, and throws exactly when some record throws |
| Decoders.XmciLteCarriers | FibocomMonitor/AT.cs:133-215 | for LTE, `BandList` gains exactly the carriers of the acceptable records before the first throwing one, numbered 1, 2, ...; `XMCIDecoder` throws exactly when some record's PCI or EARFCN does not parse |
| Decoders.UmtsAccepts | FibocomMonitor/AT.cs:178-208 | a UMTS record advances `idx` exactly when it matched, has its five groups and all five numbers parse, and then the loop continues from `UmtsAccepted` of its parsed numbers |
| Decoders.UmtsCarrierFigures | FibocomMonitor/AT.cs:187-208 | an accepted UMTS record appends exactly one carrier: number `idx`, the low 16 bits of the CGI, PSC, the range band of its UARFCN, the UARFCN, RSCP raw-120 and EcNo raw/2-24 in tenths of a dB; `UARFCN` is written only for `idx` 0 |
| Decoders.ScanAll | FibocomMonitor/AT.cs:138-212 | the `for` loop as a fold over the matches; `ScanGrows`, `AbortAbsorbs` and `ScanNumbered` state what it keeps |
| Decoders.XmciDecoded | FibocomMonitor/AT.cs:133-215 | `XMCIDecoder` as a function of the old fields and the matches; `XmciLteCarriers`, `XmciLte`, `XmciDecodedScan` and `XmciKeepsUarfcn` state its effect |
| Decoders.StepEffect | FibocomMonitor/AT.cs:138-212 | one loop pass either leaves the state alone, stops it, or appends exactly one carrier numbered `idx` and advances `idx` |
| Decoders.ScanGrows | FibocomMonitor/AT.cs:136-212 | the loop only appends to `BandList`, never lowers `idx`, and from `idx` 1 never writes `UARFCN` |
| Decoders.XmciKeepsUarfcn | FibocomMonitor/AT.cs:136-202 | `XMCIDecoder` never changes `UARFCN` |
| Decoders.AbortAbsorbs | FibocomMonitor/AT.cs:152-153 | once a record has thrown, later records change nothing |
| Decoders.StepNumbered | FibocomMonitor/AT.cs:171-211 | each pass keeps the invariant: carriers of one technology numbered 1, 2, ..., `idx` one past their count, summary made of their parts |
| Decoders.ScanNumbered | FibocomMonitor/AT.cs:133-212 | the invariant holds after any number of records |
| Decoders.LteSummaryFirstThree | FibocomMonitor/AT.cs:174 | the LTE summary holds the parts of the first three carriers and of no others |
| Decoders.XmciLte | FibocomMonitor/AT.cs:133-215 | for LTE: the old carriers stay, the new ones are numbered 1, 2, ...; `Band` is the trimmed parts of the first three; nothing else changes; `XmciLteCarriers` says which carriers they are |
| Decoders.XmciDecodedScan | FibocomMonitor/AT.cs:133-215 | `XMCIDecoder` in terms of the final loop state, `Band` written only when nothing threw |
| Decoders.LteSkipped | FibocomMonitor/AT.cs:141-158 | a failed match, a missing group, or an RSRP / RSRQ that is not an `int` passes the record over with `idx` unchanged |
| Decoders.LtePrefixedPciAborts | FibocomMonitor/AT.cs:152 | a record whose PCI carries the `0x` the pattern captures makes the loop throw |
| Decoders.XmciPrefixedPciAborts | FibocomMonitor/AT.cs:133-153 | when the first record is pattern-shaped, `XMCIDecoder` throws before adding any carrier or writing `Band` |
| Decoders.UmtsPrefixedPscAborts | FibocomMonitor/AT.cs:187 | a UMTS record whose PSC carries its `0x` makes the loop throw |
| Decoders.LteCellIdValue | FibocomMonitor/AT.cs:164-169 | the cell id is `eNodeB * 256 + pci` for an unprefixed eNodeB, and 0 for a `0x`-prefixed or missing one |
| Decoders.ParseAllMeaning | FibocomMonitor/AT.cs:91 | `Select(int.Parse)` succeeds exactly when every piece is an `int`, and then holds those `int`s in order |
| Decoders.RatGate | FibocomMonitor/AT.cs:92-98 | a type gets through exactly when it is present, parses, and is 2 or 4 |
| Decoders.OnlyLteSurvives | FibocomMonitor/AT.cs:93-98 | of the types the pattern admits, 3 and 4, only 4 gets through |
| Decoders.XmciLines | FibocomMonitor/AT.cs:418-443 | records are returned exactly for LTE or UMTS with at least one match, and then there is at least one |
| Decoders.Poll | FibocomMonitor/AT.cs:70-103 | the `try` block of `SendCommand` as a function of the old fields and the replies; `PollCompletesOnlyForLte`, `ReachesAfterCsq`, `PollEmptyBandwidths` and `PollStopsAtPrefixedPci` state what it does |
| Decoders.PollCompletesOnlyForLte | FibocomMonitor/AT.cs:70-103 | a cycle that completes without exception had an LTE report |
| Decoders.ReachesAfterCsq | FibocomMonitor/AT.cs:74-83 | replies that reach the gate get past `DecoderCSQ` without touching `BandList` or `Band` |
| Decoders.PollEmptyBandwidths | FibocomMonitor/AT.cs:91-101 | a bandwidth list of nothing but commas makes the cycle throw at `bwcodes[0]` |
| Decoders.PollStopsAtPrefixedPci | FibocomMonitor/AT.cs:70-103 | with pattern-shaped replies an LTE cycle throws in `XMCIDecoder`, leaving `BandList` and `Band` as they were |
| At.AtHost.constructor | FibocomMonitor/AT.cs:43-45 | a new host has an empty snapshot |
| At.AtHost.DecoderCops | FibocomMonitor/AT.cs:263-284 | the fields and the exception are exactly those `CopsUpdate` gives |
| At.AtHost.DecoderCsq | FibocomMonitor/AT.cs:217-229 | the fields and the exception are exactly those `CsqUpdate` gives |
| At.AtHost.DecoderXs | FibocomMonitor/AT.cs:231-261 | the fields and the exception are exactly those `XsUpdate` gives |
| At.AtHost.SetLteServing | FibocomMonitor/AT.cs:240-245 | writes the LTE serving-cell texts and nothing else, exactly as `LteServing` gives them |
| At.AtHost.SetUmtsServing | FibocomMonitor/AT.cs:254-257 | writes the UMTS serving-cell texts and nothing else, exactly as `UmtsServing` gives them |
| At.AtHost.SetDistance | FibocomMonitor/AT.cs:259-260 | writes `Distance` exactly when the timing advance is positive, as `WithDistance` gives it |
| At.AtHost.XmciDecoder | FibocomMonitor/AT.cs:133-215 | the loop leaves the fields and the exception that the fold `XmciDecoded` gives |
| At.AtHost.LteRecord | FibocomMonitor/AT.cs:144-176 | one LTE pass moves the loop state exactly as `LteStep` does, writing only `BandList` |
| At.AtHost.UmtsRecord | FibocomMonitor/AT.cs:178-208 | one UMTS pass moves the loop state exactly as `UmtsStep` does, writing only `BandList` and `UARFCN` |
| At.AtHost.AcceptLte | FibocomMonitor/AT.cs:160-176 | an accepted LTE record appends its carrier and summary part as `LteAccepted` says |
| At.AtHost.AcceptUmts | FibocomMonitor/AT.cs:196-208 | an accepted UMTS record appends its carrier and summary part as `UmtsAccepted` says |
| At.AtHost.Cycle | FibocomMonitor/AT.cs:72-103 | the `try` block leaves the fields and the exception that `Poll` gives |
| At.AtHost.SendCommand | FibocomMonitor/AT.cs:70-105 | `Result` is what `Poll` gives, and the port stays open exactly when it was open and nothing threw |

## Left out

- Serial I/O (`SendAndRead`, `Open`, `Close`, `Dispose`, `SetNewPort`, `ClosePort`, `Check`, the pin-changed handler) and `MessageBox`: the replies of one cycle are a `Replies` parameter; closing the port is modelled only as `IsOpen` becoming false. As written, `SendAndRead` reads only while `IsOpen != true` (AT.cs:340), and `Open` sets `IsOpen` to true, so on an open port every reply is the empty text; the `Replies` parameter ranges over replies the program as written never receives.
- `CheckSIM` and `CheckSerial`: the `+CPIN` outcome is the `simReady` parameter; whether the modem is a GL860 is a constructor parameter. Because every reply is empty, `CheckSerial` always sets `IsGL860` (AT.cs:610-614) and `CheckSIM` always throws `No SIM.` (AT.cs:599-605), so no cycle of the program as written gets past the SIM check; that is `Poll` with `simReady` false. The `+CPIN` pattern (AT.cs:317) matches only `+CPIN: SIM PIN<digits>`, so `simReady` stands for "a SIM PIN is required", not for `READY`.
- The regex engine: each pattern's result is given as its already-matched groups (`Match`, `CopsMatch`, the `Replies` fields); the patterns themselves are cited, not executed.
- `At.AtHost.DecoderXs`: the RSSI estimate `rsrp + 10 * log10(12 * np)` is floating point; its printed text is the `rssiText` parameter, used only when the bandwidth code has resource blocks, and the `-113 dBm` fallback is modelled. `RSSI` is never `Unknown` since `ConvertRsrpToRssi` always returns a value.
- `Decoders.XsUmts`: EcNo is an `int` halved with truncation in `DecoderXS`, as written; the `double` EcNo `XMCIDecoder` lists (`rawEcno / 2.0 - 24`) is kept exactly in tenths of a dB, and its `F1` formatting is not modelled.
- `BandList` strings: each carrier is a structured `Carrier` value holding every number the source interpolates, not the formatted `Carrier {idx}: CI: ...` text.
- Number formatting is that of the invariant culture; the distance text follows the shortest-round-trip `double` format for a whole number of metres.
- Exception types are merged into one `Failure` datatype naming the step that threw; `Close(true)`'s disposal is not modelled.
- `MTSMRegex().Match(mtsm).Value` is the `temperature` parameter.
- `NumberText.ParseInt32`: .NET also accepts trailing `\0` characters after the trailing white space; the model rejects them, as do `ParseHex32` and `ParseHex64`. The captured groups are digit runs, so no decoder sees one.
