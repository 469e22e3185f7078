/** `impl_struct`: the payload pairs become the ordered telemetry record of a
    PHOENIX-mode beacon. Printing the record is left to the caller. */
module Beacon {
  import opened Hex
  import opened Temperature
  import opened Ingest

  /** What one record entry holds. The source keeps each as a small list. */
  datatype Value =
      /** a classification string */
    | Label(text: string)
      /** `float(raw * factor)` with its unit; kept as the raw word and the
          decimal factor, the binary64 rounding is not modelled */
    | Measurement(raw: nat, factor: real, unit: string)
      /** `float(((raw * scale) - offset) / divisor)` with its unit; kept as the
          raw word and the three decimal constants, not evaluated */
    | McuReading(raw: nat, scale: real, offset: real, divisor: real, unit: string)
      /** `float(format_temp(raw))`, exact */
    | Degrees(celsius: real, unit: string)
      /** `hex(raw)` */
    | HexText(text: string)
      /** a raw integer */
    | Count(n: nat)

  type Entry = (string, Value)

  // Units
  const Volt := "[V]"
  const MiliAmp := "[mA]"
  const Centigrade := "[\U{00B0}C]"
  const Ohm := "[\U{03A9}]"

  // Identifiers
  const ConopsModePhoenix: nat := 0xa1c9
  /** Defined beside the PHOENIX identifier but never consulted. */
  const ConopsModeOther: nat := 0xe7a9
  const AntennaRegistersOff := "deafbeef"

  const ModePhoenixText := "OP MODE: {PHOENIX}"
  const ModeOtherText := "Other"
  const AntennaOffPrefix := "ANTENNA - 0x"
  const AntennaOnPrefix := "ANTENNA: {CONNECTED - DEPLOYED} - 0x"

  // Record keys, in the order the record lists them
  const LabelConOps := "ConOps magic num ID             :   "
  const LabelBatteryVoltage := "EPS I Battery Voltage           :   "
  const LabelBatteryCurrent := "EPS I Battery Current           :   "
  const LabelBcrVoltage := "BCR Voltage                     :   "
  const LabelBcrCurrent := "BCR Current                     :   "
  const LabelPanelXVoltage := "SOL PAN X V                     :   "
  const LabelPanelXMinusCurrent := "SOL PAN X- Current              :   "
  const LabelPanelXPlusCurrent := "SOL PAN X+ Current              :   "
  const LabelPanelYVoltage := "SOL PAN Y V                     :   "
  const LabelPanelYMinusCurrent := "SOL PAN Y- Current              :   "
  const LabelPanelYPlusCurrent := "SOL PAN Y+ Current              :   "
  const LabelPanelZVoltage := "SOL PAN Z V                     :   "
  const LabelPanelZMinusCurrent := "SOL PAN Z- Current              :   "
  const LabelPanelZPlusCurrent := "SOL PAN Z+ Current              :   "
  const LabelBus3V3Current := "3.3V Bus Current                :   "
  const LabelBus5VCurrent := "5V   Bus Current                :   "
  const LabelMcuTemperature := "MCU Temperature                 :   "
  const LabelBatteryCell1Temp := "Battery Cell 1 Temp             :   "
  const LabelBatteryCell2Temp := "Battery Cell 2 Temp             :   "
  const LabelInputCondition := "Input Condition                 :   "
  const LabelOutputConditions1 := "Output Conditions 1             :   "
  const LabelOutputConditions2 := "Output Conditions 2             :   "
  const LabelPowerOnCycles := "Power ON Cycle Counter          :   "
  const LabelUnderVoltageCount := "Under Voltage Cond Counter      :   "
  const LabelShortCircuitCount := "Short Circuit Cond Counter      :   "
  const LabelOverTempCount := "Over Temp Cond Counter          :   "
  const LabelPackTempMax := "Battpack1 temp sensor 1 max temp:   "
  const LabelPackTempMin := "Battpack1 temp sensor 1 min temp:   "
  const LabelDefaultLupsFastcharge := "Default Vals LUPs & fastcharge  :   "
  const LabelDefaultOuts := "Default Vals OUTs 1:6           :   "
  const LabelBatteryResistance := "Battery Internal Resistance     :   "
  const LabelBatteryIdealVoltage := "Battery Ideal Voltage           :   "
  const LabelAntennaRegisters := "UHF Antenna Registers           :   "
  const LabelStatusControlWord := "UHF Status Control Word         :   "

  const Labels: seq<string> := [
    LabelConOps, LabelBatteryVoltage, LabelBatteryCurrent, LabelBcrVoltage,
    LabelBcrCurrent, LabelPanelXVoltage, LabelPanelXMinusCurrent, LabelPanelXPlusCurrent,
    LabelPanelYVoltage, LabelPanelYMinusCurrent, LabelPanelYPlusCurrent, LabelPanelZVoltage,
    LabelPanelZMinusCurrent, LabelPanelZPlusCurrent, LabelBus3V3Current, LabelBus5VCurrent,
    LabelMcuTemperature, LabelBatteryCell1Temp, LabelBatteryCell2Temp, LabelInputCondition,
    LabelOutputConditions1, LabelOutputConditions2, LabelPowerOnCycles, LabelUnderVoltageCount,
    LabelShortCircuitCount, LabelOverTempCount, LabelPackTempMax, LabelPackTempMin,
    LabelDefaultLupsFastcharge, LabelDefaultOuts, LabelBatteryResistance, LabelBatteryIdealVoltage,
    LabelAntennaRegisters, LabelStatusControlWord
  ]

  /** Every payload entry is a two-digit hex string, as `format_frame` makes them. */
  predicate WellFormedPayload(payload: seq<string>) {
    forall k :: 0 <= k < |payload| ==> IsHexPair(payload[k])
  }

  /** A 16-bit unsigned word. */
  type Word16 = w: nat | w < 0x1_0000

  /** `int(payload[hi] + payload[lo], 16)`: the word whose high byte is the
      pair at hi and whose low byte is the pair at lo, read pair by pair. */
  function Word(payload: seq<string>, hi: nat, lo: nat): (w: Word16)
    requires WellFormedPayload(payload) && hi < |payload| && lo < |payload|
    ensures w / 256 == PairValue(payload[hi]) && w % 256 == PairValue(payload[lo])
  {
    PairValue(payload[hi]) * 256 + PairValue(payload[lo])
  }

  /** Word assembly: reading the four-digit concatenation in base 16, as the
      source does, gives the pair at hi as the high byte and the pair at lo as
      the low byte. */
  lemma WordAssembly(payload: seq<string>, hi: nat, lo: nat)
    requires WellFormedPayload(payload) && hi < |payload| && lo < |payload|
    ensures ParseHex(payload[hi]) < 256 && ParseHex(payload[lo]) < 256
    ensures Word(payload, hi, lo) == ParseHex(payload[hi] + payload[lo])
    ensures Word(payload, hi, lo) == ParseHex(payload[hi]) * 256 + ParseHex(payload[lo])
  {
    WordFromPairs(payload[hi], payload[lo]);
    PairValueIsParseHex(payload[hi]);
    PairValueIsParseHex(payload[lo]);
  }

  /** The values `impl_struct` reads out of the payload before it builds the
      record, under the source's own names. */
  datatype Fields = Fields(
    head: Word16, vBatt: Word16, iBatt: Word16, vBcr: Word16, iBcr: Word16,
    vX: Word16, iXm: Word16, iXp: Word16, vY: Word16, iYm: Word16, iYp: Word16,
    vZ: Word16, iZm: Word16, iZp: Word16, i3V3: Word16, i5V: Word16, tMcu: Word16,
    tBatt1: Word16, tBatt2: Word16, tBatt3: Word16, tBatt4: Word16,
    cndInput: Word16, cndOutput1: Word16, cndOutput2: Word16, porCycles: Word16,
    vUnder: Word16, vShort: Word16, vOvertemp: Word16, tMax1: Word16, tMin1: Word16,
    def1: Word16, rBatt: Word16, vIdealBatt: Word16, uhfAnt: string, scw: Word16,
    def2: nat)

  /** The field reads of `impl_struct`, one per source line. The default
      outputs byte re-reads the low pair of the battery internal resistance. */
  function ExtractFields(payload: seq<string>): (f: Fields)
    requires |payload| >= 75 && WellFormedPayload(payload)
    ensures f.def2 == f.rBatt % 256
  {
    PairValueIsParseHex(payload[65]);
    Fields(
      head := Word(payload, 2, 1),
      vBatt := Word(payload, 4, 3),
      iBatt := Word(payload, 6, 5),
      vBcr := Word(payload, 8, 7),
      iBcr := Word(payload, 10, 9),
      vX := Word(payload, 12, 11),
      iXm := Word(payload, 14, 13),
      iXp := Word(payload, 16, 15),
      vY := Word(payload, 18, 17),
      iYm := Word(payload, 20, 19),
      iYp := Word(payload, 22, 21),
      vZ := Word(payload, 24, 23),
      iZm := Word(payload, 26, 25),
      iZp := Word(payload, 28, 27),
      i3V3 := Word(payload, 30, 29),
      i5V := Word(payload, 32, 31),
      tMcu := Word(payload, 34, 33),
      tBatt1 := Word(payload, 36, 35),
      tBatt2 := Word(payload, 38, 37),
      tBatt3 := Word(payload, 40, 39),
      tBatt4 := Word(payload, 42, 41),
      cndInput := Word(payload, 44, 43),
      cndOutput1 := Word(payload, 46, 45),
      cndOutput2 := Word(payload, 48, 47),
      porCycles := Word(payload, 52, 51),
      vUnder := Word(payload, 54, 53),
      vShort := Word(payload, 56, 55),
      vOvertemp := Word(payload, 58, 57),
      tMax1 := Word(payload, 60, 59),
      tMin1 := Word(payload, 62, 61),
      def1 := Word(payload, 64, 63),
      rBatt := Word(payload, 66, 65),
      vIdealBatt := Word(payload, 68, 67),
      uhfAnt := payload[72] + payload[71] + payload[70] + payload[69],
      scw := Word(payload, 74, 73),
      def2 := ParseHex(payload[65]))
  }

  /** The values of the dictionary literal of `impl_struct`, in its order. */
  function RecordValues(f: Fields): (v: seq<Value>)
    ensures |v| == |Labels|
    ensures forall i :: 0 <= i < |v| ==>
      && (v[i].HexText? <==> i in {19, 20, 21, 23, 24, 25, 28, 29, 33})
      && (v[i].Count? <==> i == 22)
  {
    [
      // 0: LabelConOps
      Label(if f.head == ConopsModePhoenix then ModePhoenixText else ModeOtherText),
      // 1: LabelBatteryVoltage
      Measurement(f.vBatt, 0.0023394775, Volt),
      // 2: LabelBatteryCurrent
      Measurement(f.iBatt, 3.0517578, MiliAmp),
      // 3: LabelBcrVoltage
      Measurement(f.vBcr, 0.0023394775, Volt),
      // 4: LabelBcrCurrent
      Measurement(f.iBcr, 1.5258789, MiliAmp),
      // 5: LabelPanelXVoltage
      Measurement(f.vX, 0.0024414063, Volt),
      // 6: LabelPanelXMinusCurrent
      Measurement(f.iXm, 0.6103516, MiliAmp),
      // 7: LabelPanelXPlusCurrent
      Measurement(f.iXp, 0.6103516, MiliAmp),
      // 8: LabelPanelYVoltage
      Measurement(f.vY, 0.0024414063, Volt),
      // 9: LabelPanelYMinusCurrent
      Measurement(f.iYm, 0.6103516, MiliAmp),
      // 10: LabelPanelYPlusCurrent
      Measurement(f.iYp, 0.6103516, MiliAmp),
      // 11: LabelPanelZVoltage
      Measurement(f.vZ, 0.0024414063, Volt),
      // 12: LabelPanelZMinusCurrent
      Measurement(f.iZm, 0.6103516, MiliAmp),
      // 13: LabelPanelZPlusCurrent
      Measurement(f.iZp, 0.6103516, MiliAmp),
      // 14: LabelBus3V3Current
      Measurement(f.i3V3, 2.0345052, MiliAmp),
      // 15: LabelBus5VCurrent
      Measurement(f.i5V, 2.0345052, MiliAmp),
      // 16: LabelMcuTemperature
      McuReading(f.tMcu, 0.0006103516, 0.986, 0.00355, Centigrade),
      // 17: LabelBatteryCell1Temp
      Degrees(FormatTemp(f.tBatt1), Centigrade),
      // 18: LabelBatteryCell2Temp
      Degrees(FormatTemp(f.tBatt2), Centigrade),
      // 19: LabelInputCondition
      HexText(PyHex(f.cndInput)),
      // 20: LabelOutputConditions1
      HexText(PyHex(f.cndOutput1)),
      // 21: LabelOutputConditions2
      HexText(PyHex(f.cndOutput2)),
      // 22: LabelPowerOnCycles
      Count(f.porCycles),
      // 23: LabelUnderVoltageCount
      HexText(PyHex(f.vUnder)),
      // 24: LabelShortCircuitCount
      HexText(PyHex(f.vShort)),
      // 25: LabelOverTempCount
      HexText(PyHex(f.vOvertemp)),
      // 26: LabelPackTempMax
      Degrees(FormatTemp(f.tMax1), Centigrade),
      // 27: LabelPackTempMin
      Degrees(FormatTemp(f.tMin1), Centigrade),
      // 28: LabelDefaultLupsFastcharge
      HexText(PyHex(f.def1)),
      // 29: LabelDefaultOuts
      HexText(PyHex(f.def2)),
      // 30: LabelBatteryResistance
      Measurement(f.rBatt, 1.4972656, Ohm),
      // 31: LabelBatteryIdealVoltage
      Measurement(f.vIdealBatt, 0.0023394775, Volt),
      // 32: LabelAntennaRegisters
      Label(
        if f.uhfAnt == AntennaRegistersOff then AntennaOffPrefix + Upper(f.uhfAnt)
        else AntennaOnPrefix + f.uhfAnt),
      // 33: LabelStatusControlWord
      HexText(PyHex(f.scw))
    ]
  }

  /** The dictionary literal of `impl_struct`: each key beside its value. */
  function BuildRecord(f: Fields): (r: seq<Entry>)
    ensures |r| == |Labels| == 34
    ensures forall i :: 0 <= i < |r| ==> r[i].0 == Labels[i]
  {
    var values := RecordValues(f);
    seq(|Labels|, i requires 0 <= i < |Labels| => (Labels[i], values[i]))
  }

  /** `impl_struct`: the record built from the payload pairs. Its 34 entries
      carry the literal's keys in order; the resistance entry is the word of
      pairs 66 and 65, and the default-outputs entry the `hex()` of its low
      byte. */
  function ImplStruct(payload: seq<string>): (r: seq<Entry>)
    requires |payload| >= 75 && WellFormedPayload(payload)
    ensures |r| == 34 && forall i :: 0 <= i < 34 ==> r[i].0 == Labels[i]
    ensures r[30].1 == Measurement(Word(payload, 66, 65), 1.4972656, Ohm)
    ensures r[29].1 == HexText(PyHex(Word(payload, 66, 65) % 256))
  {
    BuildRecord(ExtractFields(payload))
  }

  /** The parser end to end on the file contents: `format_frame`, then
      `impl_struct` on its payload. A frame that is too short fails with the
      IndexError of the first subscript past its end. */
  function Decode(frame: seq<byte>): (r: Result<seq<Entry>>)
    ensures r.Ok? <==> |Strip(frame)| >= 76
  {
    match FrameView(frame)
    case Err(e) => Err(e)
    case Ok(parts) =>
      if |parts.payload| < 75 then Err(IndexError) else Ok(ImplStruct(parts.payload))
  }

  /** The record has 34 entries under pairwise different keys, in the order
      of the source's literal: the default-outputs entry directly precedes the
      battery internal resistance. */
  lemma RecordKeys(f: Fields)
    ensures |BuildRecord(f)| == 34
    ensures forall i :: 0 <= i < 34 ==> BuildRecord(f)[i].0 == Labels[i]
    ensures forall i, j :: 0 <= i < j < 34 ==> BuildRecord(f)[i].0 != BuildRecord(f)[j].0
    ensures BuildRecord(f)[29].0 == LabelDefaultOuts && BuildRecord(f)[30].0 == LabelBatteryResistance
  {
    LabelsDistinct();
  }

  /** v is the `hex()` text of raw: "0x", then lower-case digits without a
      leading zero that read back as raw. */
  predicate HexReported(v: Value, raw: nat) {
    && v.HexText? && |v.text| > 2 && v.text[..2] == "0x"
    && IsHexString(v.text[2..]) && IsLowerHexString(v.text[2..])
    && ParseHex(v.text[2..]) == raw
    && (v.text[2] == '0' ==> raw == 0)
  }

  /** `hex(raw)` is reported as such. */
  lemma PyHexReported(raw: nat)
    ensures HexReported(HexText(PyHex(raw)), raw)
  {
    PyHexSpec(raw);
  }

  /** Helper for `RecordValueKinds`: which record entries hold the `hex()`
      text of which word, read off the literal. */
  lemma RecordHexEntries(f: Fields)
    ensures BuildRecord(f)[19].1 == HexText(PyHex(f.cndInput))
    ensures BuildRecord(f)[20].1 == HexText(PyHex(f.cndOutput1))
    ensures BuildRecord(f)[21].1 == HexText(PyHex(f.cndOutput2))
    ensures BuildRecord(f)[23].1 == HexText(PyHex(f.vUnder))
    ensures BuildRecord(f)[24].1 == HexText(PyHex(f.vShort))
    ensures BuildRecord(f)[25].1 == HexText(PyHex(f.vOvertemp))
    ensures BuildRecord(f)[28].1 == HexText(PyHex(f.def1))
    ensures BuildRecord(f)[29].1 == HexText(PyHex(f.def2))
    ensures BuildRecord(f)[33].1 == HexText(PyHex(f.scw))
  {
  }

  /** The power-on counter is reported as a plain integer, while the
      condition, event-counter, default-value and status words are reported
      as `hex()` text that reads back as the raw word. */
  lemma RecordValueKinds(f: Fields)
    ensures BuildRecord(f)[22].1 == Count(f.porCycles)
    ensures HexReported(BuildRecord(f)[19].1, f.cndInput)
    ensures HexReported(BuildRecord(f)[20].1, f.cndOutput1)
    ensures HexReported(BuildRecord(f)[21].1, f.cndOutput2)
    ensures HexReported(BuildRecord(f)[23].1, f.vUnder)
    ensures HexReported(BuildRecord(f)[24].1, f.vShort)
    ensures HexReported(BuildRecord(f)[25].1, f.vOvertemp)
    ensures HexReported(BuildRecord(f)[28].1, f.def1)
    ensures HexReported(BuildRecord(f)[29].1, f.def2)
    ensures HexReported(BuildRecord(f)[33].1, f.scw)
  {
    RecordHexEntries(f);
    PyHexReported(f.cndInput);
    PyHexReported(f.cndOutput1);
    PyHexReported(f.cndOutput2);
    PyHexReported(f.vUnder);
    PyHexReported(f.vShort);
    PyHexReported(f.vOvertemp);
    PyHexReported(f.def1);
    PyHexReported(f.def2);
    PyHexReported(f.scw);
  }

  /** No two keys coincide, so the dictionary keeps all 34 entries. */
  lemma LabelsDistinct()
    ensures forall i, j :: 0 <= i < j < |Labels| ==> Labels[i] != Labels[j]
  {
  }

  /** The antenna entry compares the register string with "deafbeef": on a
      match it shows the constant in upper case, otherwise the string as read. */
  lemma AntennaEntry(f: Fields)
    ensures BuildRecord(f)[32].1 == Label(
      if f.uhfAnt == AntennaRegistersOff then "ANTENNA - 0xDEAFBEEF"
      else AntennaOnPrefix + f.uhfAnt)
  {
    assert Upper(AntennaRegistersOff) == "DEAFBEEF";
  }

  /** The battery cell 3 and 4 words are read but never reported. */
  lemma CellsThreeAndFourUnreported(f: Fields, t3: Word16, t4: Word16)
    ensures BuildRecord(f.(tBatt3 := t3, tBatt4 := t4)) == BuildRecord(f)
  {
  }
}
