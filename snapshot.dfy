/** The decoded modem state: the `Data` record of `AtHost`, its value view,
    and the structured carrier descriptors `BandList` holds. */
module Snapshot {
  import Bands

  /** One accepted carrier of an `+XMCI` report, as `XMCIDecoder` describes
      it in `BandList`: its 1-based position among the accepted records, the
      cell identity, the physical cell (PCI for LTE, PSC for UMTS), the band
      and channel, and the signal figures. UMTS EcNo is kept in tenths of a
      dB, which is exact for the half-dB steps the modem reports. */
  datatype Carrier =
    | LteCarrier(index: nat, ci: int, pci: int, band: Bands.Band, earfcn: int, rsrp: int, rsrq: int)
    | UmtsCarrier(index: nat, ci: int, psc: int, band: Bands.Band, uarfcn: int, rscp: int, ecnoTenths: int)

  /** The value of every field of a `Data` record at one moment. */
  datatype Fields = Fields(
    rssi: string, rsrp: string, rsrq: string, sinr: string, rscp: string,
    ecno: string, band: string, signalStrength: string, distance: string,
    statusNetwork: string, operator: string, uarfcn: string, earfcn: string,
    temp: string, bandList: seq<Carrier>)

  /** A record with no text set and no carrier listed. */
  predicate IsEmpty(f: Fields) {
    && f.rssi == [] && f.rsrp == [] && f.rsrq == [] && f.sinr == []
    && f.rscp == [] && f.ecno == [] && f.band == [] && f.signalStrength == []
    && f.distance == [] && f.statusNetwork == [] && f.operator == []
    && f.uarfcn == [] && f.earfcn == [] && f.temp == [] && f.bandList == []
  }

  /** `Data`: the snapshot `AtHost` fills in, one mutable field per figure
      and the list of carrier descriptors. */
  class Data {
    var RSSI: string
    var RSRP: string
    var RSRQ: string
    var SINR: string
    var RSCP: string
    var ECNO: string
    var Band: string
    var SignalStrength: string
    var Distance: string
    var StatusNetwork: string
    var Operator: string
    var UARFCN: string
    var EARFCN: string
    var TEMP: string
    var BandList: seq<Carrier>

    /** The current value of every field. */
    function Value(): Fields
      reads this
    {
      Fields(RSSI, RSRP, RSRQ, SINR, RSCP, ECNO, Band, SignalStrength,
             Distance, StatusNetwork, Operator, UARFCN, EARFCN, TEMP, BandList)
    }

    /** Every property starts out as the empty string, the list empty. */
    constructor ()
      ensures IsEmpty(Value())
    {
      RSSI, RSRP, RSRQ, SINR, RSCP, ECNO, Band := "", "", "", "", "", "", "";
      SignalStrength, Distance, StatusNetwork, Operator := "", "", "", "";
      UARFCN, EARFCN, TEMP := "", "", "";
      BandList := [];
    }

    /** `Clear`: every text field back to the empty string and the carrier
        list emptied, whatever the record held before. */
    method Clear()
      modifies this
      ensures RSSI == RSRP == RSRQ == SINR == RSCP == ECNO == Band == ""
      ensures SignalStrength == Distance == StatusNetwork == Operator == ""
      ensures UARFCN == EARFCN == TEMP == "" && BandList == []
    {
      ClearFigures();
      ClearRest();
    }

    /** The first half of `Clear`'s chained assignment: the radio figures
        and the band summary. */
    method ClearFigures()
      modifies this
      ensures RSSI == RSRP == RSRQ == SINR == RSCP == ECNO == Band == ""
      ensures SignalStrength == old(SignalStrength) && Distance == old(Distance)
      ensures StatusNetwork == old(StatusNetwork) && Operator == old(Operator)
      ensures UARFCN == old(UARFCN) && EARFCN == old(EARFCN) && TEMP == old(TEMP)
      ensures BandList == old(BandList)
    {
      RSSI := "";
      RSRP := "";
      RSRQ := "";
      SINR := "";
      RSCP := "";
      ECNO := "";
      Band := "";
    }

    /** The rest of the chained assignment, then `BandList.Clear()`. */
    method ClearRest()
      modifies this
      ensures SignalStrength == Distance == StatusNetwork == Operator == ""
      ensures UARFCN == EARFCN == TEMP == "" && BandList == []
      ensures RSSI == old(RSSI) && RSRP == old(RSRP) && RSRQ == old(RSRQ) && SINR == old(SINR)
      ensures RSCP == old(RSCP) && ECNO == old(ECNO) && Band == old(Band)
    {
      SignalStrength := "";
      Distance := "";
      StatusNetwork := "";
      Operator := "";
      UARFCN := "";
      EARFCN := "";
      TEMP := "";
      BandList := [];
    }
  }
}
