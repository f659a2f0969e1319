/** `AtHost`: the decoders that fill in its `Result` record, and the
    `SendCommand` cycle that runs them. Each method changes `Result` exactly
    as the function of the same name in `Decoders` says. */
module At {
  import opened Wrappers
  import opened MachineInt
  import opened NumberText
  import opened Bands
  import opened Snapshot
  import opened Decoders

  /** What the loop body of `XMCIDecoder` did with one matched record. */
  datatype Record = Passed | Threw | Accepted

  /** The loop state that handling one record leads to: unchanged when it
      was passed over, stopped when it threw, and for an accepted record the
      new summary, the next `idx`, and the new `BandList` and `UARFCN`. */
  function Resume(s: Scan, record: Record, accum: string, carriers: seq<Carrier>, uarfcn: string): Progress {
    match record
    case Passed => Running(s)
    case Threw => Aborted(s)
    case Accepted => Running(Scan(accum, s.idx + 1, carriers, uarfcn))
  }

  class AtHost {
    /** The snapshot the decoders fill in; the host never replaces it. */
    const Result: Data
    var IsGL860: bool
    var IsOpen: bool

    /** A host with an empty snapshot; whether the port opened and whether
        the modem answered `AT+MTSM=1` come from the port set-up. */
    constructor (isOpen: bool, isGL860: bool)
      ensures fresh(Result) && IsEmpty(Result.Value())
      ensures IsOpen == isOpen && IsGL860 == isGL860
    {
      Result := new Data();
      IsOpen := isOpen;
      IsGL860 := isGL860;
    }

    /** `DecoderCOPS`. */
    method DecoderCops(m: Option<CopsMatch>) returns (failure: Option<Failure>)
      modifies Result
      ensures var o := CopsUpdate(old(Result.Value()), m);
        Result.Value() == o.fields && failure == o.failure
    {
      if m.Some? {
        Result.Operator := m.value.operator;
        Result.StatusNetwork := NetworkStatus(m.value.networkType);
        failure := None;
      } else {
        failure := Some(CopsUnmatched);
      }
    }

    /** `DecoderCSQ`. */
    method DecoderCsq(sg: Option<string>) returns (failure: Option<Failure>)
      modifies Result
      ensures var o := CsqUpdate(old(Result.Value()), sg);
        Result.Value() == o.fields && failure == o.failure
    {
      if sg.None? {
        return Some(CsqUnmatched);
      }
      var parsed := ParseInt32(sg.value);
      if parsed.None? {
        return Some(ParseError);
      }
      var sig := Quot(Wrap32(parsed.value * 100), 31);
      Result.SignalStrength := IntText(sig) + " %";
      failure := None;
    }

    /** `DecoderXS`: the serving cell's figures, all parsed before any of
        them is written, then the distance for a positive timing advance. */
    method DecoderXs(bwcode: int, ta: int, rat: int, line: Match, rssiText: string)
      returns (failure: Option<Failure>)
      modifies Result
      ensures var o := XsUpdate(old(Result.Value()), bwcode, ta, rat, line, rssiText);
        Result.Value() == o.fields && failure == o.failure
    {
      if rat == 4 {
        var earf := ConvertHex32(GroupValue(line, "EARFCN"));
        var rsrp := ParseInt32(GroupValue(line, "RSRP"));
        var rsrq := ParseInt32(GroupValue(line, "RSRQ"));
        var sinr := ParseInt32(GroupValue(line, "SINR"));
        if earf.None? || rsrp.None? || rsrq.None? || sinr.None? {
          return Some(ParseError);
        }
        SetLteServing(bwcode, earf.value, rsrp.value, rsrq.value, sinr.value, rssiText);
      } else if rat == 3 {
        var uarfcn := ParseInt32(GroupValue(line, "UARFCN"));
        var rssi := ParseInt32(GroupValue(line, "RSSI"));
        var rscp := ParseInt32(GroupValue(line, "RSCP"));
        var ecno := ParseInt32(GroupValue(line, "ECNO"));
        if uarfcn.None? || rssi.None? || rscp.None? || ecno.None? {
          return Some(ParseError);
        }
        SetUmtsServing(uarfcn.value, rssi.value, rscp.value, ecno.value);
      }
      SetDistance(ta);
      failure := None;
    }

    /** The LTE branch of `DecoderXS` once its four numbers parsed. */
    method SetLteServing(bwcode: int, earf: int, rawRsrp: int, rawRsrq: int, rawSinr: int, rssiText: string)
      modifies Result
      ensures Result.Value() == LteServing(old(Result.Value()), bwcode, earf, rawRsrp, rawRsrq, rawSinr, rssiText)
    {
      var rsrpVal := Wrap32(rawRsrp - 141);
      var rsrqVal := Quot(rawRsrq, 2) - 20;
      var sinrVal := Quot(rawSinr, 2);
      Result.RSRP := IntText(rsrpVal) + " dBm";
      Result.RSRQ := IntText(rsrqVal) + " dB";
      Result.SINR := IntText(sinrVal) + " dB";
      Result.EARFCN := IntText(earf);
      Result.RSSI := RssiText(bwcode, rssiText);
    }

    /** The UMTS branch of `DecoderXS` once its four numbers parsed. */
    method SetUmtsServing(uarfcn: int, rawRssi: int, rawRscp: int, rawEcno: int)
      modifies Result
      ensures Result.Value() == UmtsServing(old(Result.Value()), uarfcn, rawRssi, rawRscp, rawEcno)
    {
      Result.UARFCN := IntText(uarfcn);
      Result.RSSI := IntText(Wrap32(rawRssi - 111)) + " dBm";
      Result.RSCP := IntText(Wrap32(rawRscp - 121)) + " dBm";
      Result.ECNO := IntText(Quot(rawEcno, 2) - 24) + " dB";
    }

    /** The last statement of `DecoderXS`. */
    method SetDistance(ta: int)
      modifies Result
      ensures Result.Value() == WithDistance(old(Result.Value()), ta)
    {
      if ta > 0 {
        Result.Distance := DistanceText(ta);
      }
    }

    /** `XMCIDecoder`: walks the records in order, appending one carrier to
        `BandList` per accepted record and collecting the band summary, then
        sets `Band` to the trimmed summary. An unparsable PCI, EARFCN, PSC,
        UARFCN or CGI throws and leaves `Band` untouched. */
    method XmciDecoder(matches: seq<Match>, rat: int, bwcodes: seq<int>) returns (failure: Option<Failure>)
      modifies Result
      ensures var o := XmciDecoded(old(Result.Value()), matches, rat, bwcodes);
        Result.Value() == o.fields && failure == o.failure
    {
      ghost var f0 := Result.Value();
      var bandAccum := "";
      var idx: nat := 1;
      for i := 0 to |matches|
        invariant ScanAll(Start(f0), matches[..i], rat, bwcodes)
                  == Running(Scan(bandAccum, idx, Result.BandList, Result.UARFCN))
        invariant Result.Value() == f0.(bandList := Result.BandList, uarfcn := Result.UARFCN)
      {
        assert matches[..i + 1][..i] == matches[..i];
        ghost var s := Scan(bandAccum, idx, Result.BandList, Result.UARFCN);
        assert ScanAll(Start(f0), matches[..i + 1], rat, bwcodes) == Step(s, matches[i], rat, bwcodes);
        var m := matches[i];
        if !m.success {
          continue;
        }
        var record := Passed;
        if rat == 4 {
          record, bandAccum := LteRecord(m, idx, bandAccum, bwcodes);
        } else if rat == 3 {
          record, bandAccum := UmtsRecord(m, idx, bandAccum, bwcodes);
        }
        if record == Threw {
          AbortAbsorbs(Start(f0), matches, i + 1, rat, bwcodes);
          return Some(ParseError);
        } else if record == Passed && (rat == 3 || rat == 4) {
          continue;
        }
        idx := idx + 1;
      }
      assert matches[..|matches|] == matches;
      Result.Band := Trim(bandAccum, WHITE_SPACE);
      failure := None;
    }

    /** The `rat == 4` part of the loop body for one matched record: passed
        over (`continue`), thrown, or accepted with its carrier appended. */
    method LteRecord(m: Match, idx: nat, bandAccum: string, bwcodes: seq<int>)
      returns (record: Record, accum: string)
      modifies Result
      ensures LteStep(Scan(bandAccum, idx, old(Result.BandList), old(Result.UARFCN)), m, bwcodes)
              == Resume(Scan(bandAccum, idx, old(Result.BandList), old(Result.UARFCN)),
                        record, accum, Result.BandList, Result.UARFCN)
      ensures Result.Value() == old(Result.Value()).(bandList := Result.BandList, uarfcn := Result.UARFCN)
      ensures record != Accepted ==>
        accum == bandAccum && Result.BandList == old(Result.BandList) && Result.UARFCN == old(Result.UARFCN)
    {
      accum := bandAccum;
      if !HasLteGroups(m) {
        return Passed, accum;
      }
      var pci := ParseHex32(m.groups["PCI"]);
      var earfcn := ParseHex32(m.groups["EARFCN"]);
      if pci.None? || earfcn.None? {
        return Threw, accum;
      }
      var rawRsrp := ParseInt32(m.groups["RSRP"]);
      if rawRsrp.None? {
        return Passed, accum;
      }
      var rawRsrq := ParseInt32(m.groups["RSRQ"]);
      if rawRsrq.None? {
        return Passed, accum;
      }
      accum := AcceptLte(m, idx, bandAccum, bwcodes, pci.value, earfcn.value, rawRsrp.value, rawRsrq.value);
      record := Accepted;
    }

    /** The tail of the LTE branch once every number parsed: the band and
        its part of the summary, and the carrier appended to `BandList`. */
    method AcceptLte(m: Match, idx: nat, bandAccum: string, bwcodes: seq<int>,
                     pci: int, earfcn: int, rawRsrp: int, rawRsrq: int)
      returns (accum: string)
      requires IsInt32(pci)
      modifies Result
      ensures Scan(accum, idx + 1, Result.BandList, Result.UARFCN)
              == LteAccepted(Scan(bandAccum, idx, old(Result.BandList), old(Result.UARFCN)),
                             m, bwcodes, pci, earfcn, rawRsrp, rawRsrq)
      ensures Result.Value() == old(Result.Value()).(bandList := Result.BandList)
    {
      ghost var expected := LteAccepted(Scan(bandAccum, idx, Result.BandList, Result.UARFCN),
                                        m, bwcodes, pci, earfcn, rawRsrp, rawRsrq);
      var rsrp := Wrap32(rawRsrp - 141);
      var rsrq := Quot(rawRsrq, 2) - 20;
      var band := GetBandLte(IntText(earfcn));
      var ci := LteCellId(m, pci);
      var bw := BwCode(idx, bwcodes);
      var bandPart := band.Text() + "|" + MHzText(bw) + "MHz";
      accum := bandAccum;
      if idx <= 3 {
        accum := accum + bandPart + " ";
      }
      assert accum == expected.summary;
      Result.BandList := Result.BandList + [LteCarrier(idx, ci, pci, band, earfcn, rsrp, rsrq)];
      assert Result.BandList == expected.carriers;
    }

    /** The `rat == 3` part of the loop body for one matched record. */
    method UmtsRecord(m: Match, idx: nat, bandAccum: string, bwcodes: seq<int>)
      returns (record: Record, accum: string)
      modifies Result
      ensures UmtsStep(Scan(bandAccum, idx, old(Result.BandList), old(Result.UARFCN)), m, bwcodes)
              == Resume(Scan(bandAccum, idx, old(Result.BandList), old(Result.UARFCN)),
                        record, accum, Result.BandList, Result.UARFCN)
      ensures Result.Value() == old(Result.Value()).(bandList := Result.BandList, uarfcn := Result.UARFCN)
      ensures record != Accepted ==>
        accum == bandAccum && Result.BandList == old(Result.BandList) && Result.UARFCN == old(Result.UARFCN)
    {
      accum := bandAccum;
      if !HasUmtsGroups(m) {
        return Passed, accum;
      }
      var psc := ParseHex32(m.groups["PSC"]);
      var uarfcn := ParseHex32(m.groups["UARFCN"]);
      if psc.None? || uarfcn.None? {
        return Threw, accum;
      }
      var rawRscp := ParseInt32(m.groups["RSCP"]);
      if rawRscp.None? {
        return Passed, accum;
      }
      var rawEcno := ParseInt32(m.groups["ECNO"]);
      if rawEcno.None? {
        return Passed, accum;
      }
      var cgi := ParseHex64(m.groups["CGI"]);
      if cgi.None? {
        return Threw, accum;
      }
      accum := AcceptUmts(idx, bandAccum, bwcodes, psc.value, uarfcn.value, rawRscp.value, rawEcno.value, cgi.value);
      record := Accepted;
    }

    /** The tail of the UMTS branch once every number parsed. */
    method AcceptUmts(idx: nat, bandAccum: string, bwcodes: seq<int>,
                      psc: int, uarfcn: int, rawRscp: int, rawEcno: int, cgi: int)
      returns (accum: string)
      modifies Result
      ensures Scan(accum, idx + 1, Result.BandList, Result.UARFCN)
              == UmtsAccepted(Scan(bandAccum, idx, old(Result.BandList), old(Result.UARFCN)),
                              bwcodes, psc, uarfcn, rawRscp, rawEcno, cgi)
      ensures Result.Value() == old(Result.Value()).(bandList := Result.BandList, uarfcn := Result.UARFCN)
    {
      var ci := cgi % 0x1_0000;
      var rscp := Wrap32(rawRscp - 120);
      var ecnoTenths := 5 * rawEcno - 240;
      if idx == 0 {
        Result.UARFCN := IntText(uarfcn);
      }
      var band := GetBandUmts(IntText(uarfcn));
      accum := bandAccum;
      if idx < |bwcodes| {
        accum := accum + band.Text() + " ";
      }
      Result.BandList := Result.BandList + [UmtsCarrier(idx, ci, psc, band, uarfcn, rscp, ecnoTenths)];
    }

    /** The body of `SendCommand`'s `try` block: the steps of one polling
        cycle in order, returning the first exception. */
    method Cycle(r: Replies) returns (failure: Option<Failure>)
      modifies Result
      ensures var o := Poll(old(Result.Value()), IsGL860, r);
        Result.Value() == o.fields && failure == o.failure
    {
      if !r.simReady {
        return Some(NoSim);
      }
      if IsGL860 {
        Result.TEMP := r.temperature;
      }
      failure := DecoderCops(r.cops);
      if failure.Some? {
        return;
      }
      failure := DecoderCsq(r.csqSignal);
      if failure.Some? {
        return;
      }
      var ta := ParseInt32(r.timingAdvance);
      if ta.None? {
        return Some(ParseError);
      }
      var bwcodes := ParseAll(SplitNonEmpty(r.bandwidths, ','));
      if bwcodes.None? {
        return Some(ParseError);
      }
      var rat := RatGate(r.ratType);
      if rat.None? {
        return Some(UnknownNetworkType);
      }
      var xmciLines := XmciLines(r, rat.value);
      if xmciLines.Err? {
        return Some(xmciLines.failure);
      }
      if |bwcodes.value| == 0 {
        return Some(IndexOutOfRange);
      }
      failure := DecoderXs(bwcodes.value[0], ta.value, rat.value, xmciLines.value[0], r.rssiText);
      if failure.Some? {
        return;
      }
      failure := XmciDecoder(xmciLines.value, rat.value, bwcodes.value);
    }

    /** `SendCommand`: one polling cycle; any exception closes the port
        (`Close(true)`), which leaves `IsOpen` false. */
    method SendCommand(r: Replies)
      modifies this, Result
      ensures var o := Poll(old(Result.Value()), old(IsGL860), r);
        && Result.Value() == o.fields
        && IsOpen == (o.failure.None? && old(IsOpen))
      ensures IsGL860 == old(IsGL860)
    {
      var failure := Cycle(r);
      if failure.Some? {
        IsOpen := false;
      }
    }
}
}
