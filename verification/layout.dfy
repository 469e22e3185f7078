/** The beacon layout stated on the stripped frame bytes themselves: absolute
    byte offsets and little-endian words, with no hex text in between. The
    lemmas here show that the string-based parser reads exactly this layout. */
module Layout {
  import opened Hex
  import opened Ingest
  import opened Beacon

  /** The little-endian word whose low byte is at offset `at`. */
  function LE16(frame: seq<byte>, at: nat): (w: nat)
    requires at + 1 < |frame|
    ensures w < 0x1_0000
  {
    frame[at] as int + 256 * frame[at + 1] as int
  }

  /** The little-endian 32-bit register whose low byte is at offset `at`. */
  function LE32(frame: seq<byte>, at: nat): nat
    requires at + 3 < |frame|
  {
    LE16(frame, at) + 0x1_0000 * LE16(frame, at + 2)
  }

  /** The telemetry words by absolute frame offset: the mode word at 2, the
      measurement words every two bytes up to 38, battery cells 3 and 4 at 40
      and 42, the condition words at 44 to 48, two reserved bytes at 50, the
      counters and pack temperatures at 52 to 62, the default-value word at 64,
      resistance and ideal voltage at 66 and 68, the antenna register at 70
      to 73 and the status control word at 74; the single default-outputs byte
      is offset 66. */
  function ByteFields(frame: seq<byte>): Fields
    requires |frame| >= 76
  {
    Fields(
      head := LE16(frame, 2),
      vBatt := LE16(frame, 4),
      iBatt := LE16(frame, 6),
      vBcr := LE16(frame, 8),
      iBcr := LE16(frame, 10),
      vX := LE16(frame, 12),
      iXm := LE16(frame, 14),
      iXp := LE16(frame, 16),
      vY := LE16(frame, 18),
      iYm := LE16(frame, 20),
      iYp := LE16(frame, 22),
      vZ := LE16(frame, 24),
      iZm := LE16(frame, 26),
      iZp := LE16(frame, 28),
      i3V3 := LE16(frame, 30),
      i5V := LE16(frame, 32),
      tMcu := LE16(frame, 34),
      tBatt1 := LE16(frame, 36),
      tBatt2 := LE16(frame, 38),
      tBatt3 := LE16(frame, 40),
      tBatt4 := LE16(frame, 42),
      cndInput := LE16(frame, 44),
      cndOutput1 := LE16(frame, 46),
      cndOutput2 := LE16(frame, 48),
      porCycles := LE16(frame, 52),
      vUnder := LE16(frame, 54),
      vShort := LE16(frame, 56),
      vOvertemp := LE16(frame, 58),
      tMax1 := LE16(frame, 60),
      tMin1 := LE16(frame, 62),
      def1 := LE16(frame, 64),
      rBatt := LE16(frame, 66),
      vIdealBatt := LE16(frame, 68),
      uhfAnt := HexFixed(LE32(frame, 70), 8),
      scw := LE16(frame, 74),
      def2 := frame[66] as int)
  }

  /** Payload pairs k + 1 and k hold the little-endian word at frame offset k + 1. */
  lemma PayloadWord(frame: seq<byte>, k: nat)
    requires |frame| >= 2 && k + 2 < |frame|
    ensures WellFormedPayload(PairsOf(frame)[1..])
    ensures Word(PairsOf(frame)[1..], k + 1, k) == LE16(frame, k + 1)
  {
    var payload := PairsOf(frame)[1..];
    WordAssembly(payload, k + 1, k);
    assert payload[k + 1] == HexPair(frame[k + 2]) && payload[k] == HexPair(frame[k + 1]);
  }

  /** Pairs 72, 71, 70 and 69, concatenated, are the register at frame
      offsets 70 to 73 written as eight zero-padded digits. */
  lemma RegisterString(frame: seq<byte>)
    requires |frame| >= 76
    ensures var payload := PairsOf(frame)[1..];
      payload[72] + payload[71] + payload[70] + payload[69] == HexFixed(LE32(frame, 70), 8)
  {
    var payload := PairsOf(frame)[1..];
    var b3, b2, b1, b0 := frame[73], frame[72], frame[71], frame[70];
    HexFixedAppendByte(0, b3, 0);
    var x2 := b3 as int * 256 + b2 as int;
    HexFixedAppendByte(b3 as int, b2, 2);
    var x1 := x2 * 256 + b1 as int;
    HexFixedAppendByte(x2, b1, 4);
    HexFixedAppendByte(x1, b0, 6);
    assert LE32(frame, 70) == x1 * 256 + b0 as int;
    assert HexFixed(LE32(frame, 70), 8) == HexPair(b3) + HexPair(b2) + HexPair(b1) + HexPair(b0);
  }

  /** The field reads of `impl_struct`, made on the hex pairs of a frame, give
      the layout read directly off its bytes. */
  lemma ExtractFieldsFollowsLayout(frame: seq<byte>)
    requires |frame| >= 76
    ensures WellFormedPayload(PairsOf(frame)[1..])
    ensures ExtractFields(PairsOf(frame)[1..]) == ByteFields(frame)
  {
    var payload := PairsOf(frame)[1..];
    forall k | 1 <= k < 75
      ensures Word(payload, k, k - 1) == LE16(frame, k)
    {
      PayloadWord(frame, k - 1);
    }
    RegisterString(frame);
    assert ParseHex(payload[65]) == frame[66] as int;
  }

  /** The parser end to end: a stripped frame of at least 76 bytes yields the
      record of its byte layout; a shorter one yields the IndexError. */
  lemma DecodeFollowsLayout(frame: seq<byte>)
    ensures var s := Strip(frame);
      Decode(frame) == if |s| >= 76 then Ok(BuildRecord(ByteFields(s))) else Err(IndexError)
  {
    var s := Strip(frame);
    if |s| >= 76 {
      ExtractFieldsFollowsLayout(s);
    }
  }

  /** On the bytes: the mode is PHOENIX exactly when offsets 2 and 3 hold 0xc9
      and 0xa1; the unused second identifier 0xe7a9 reads as "Other". */
  lemma DecodedMode(frame: seq<byte>)
    requires |frame| >= 76
    ensures BuildRecord(ByteFields(frame))[0].1 == Label(
      if frame[2] == 0xc9 && frame[3] == 0xa1 then ModePhoenixText else ModeOtherText)
    ensures LE16(frame, 2) == ConopsModeOther ==>
      BuildRecord(ByteFields(frame))[0].1 == Label(ModeOtherText)
  {
  }

  /** The register value is 0xdeafbeef exactly when its little-endian bytes
      are 0xef, 0xbe, 0xaf and 0xde. */
  lemma RegisterValueBytes(frame: seq<byte>)
    requires |frame| >= 76
    ensures LE32(frame, 70) < 0x1_0000_0000
    ensures LE32(frame, 70) == 0xdeafbeef <==>
      frame[70] == 0xef && frame[71] == 0xbe && frame[72] == 0xaf && frame[73] == 0xde
  {
  }

  /** "deafbeef" is the eight-digit form of 0xdeafbeef. */
  lemma RegistersOffForm()
    ensures HexFixed(0xdeafbeef, 8) == AntennaRegistersOff
  {
    assert HexFixed(0xd, 1) == "d";
    assert HexFixed(0xde, 2) == "de";
    assert HexFixed(0xdea, 3) == "dea";
    assert HexFixed(0xdeaf, 4) == "deaf";
    assert HexFixed(0xdeafb, 5) == "deafb";
    assert HexFixed(0xdeafbe, 6) == "deafbe";
    assert HexFixed(0xdeafbee, 7) == "deafbee";
  }

  /** The register reads "deafbeef" exactly when its value is 0xdeafbeef. */
  lemma RegisterOffValue(frame: seq<byte>)
    requires |frame| >= 76
    ensures HexFixed(LE32(frame, 70), 8) == AntennaRegistersOff <==> LE32(frame, 70) == 0xdeafbeef
  {
    RegisterValueBytes(frame);
    assert Pow16(8) == 0x1_0000_0000;
    RegistersOffForm();
    HexFixedInjective(LE32(frame, 70), 0xdeafbeef, 8);
  }

  /** On the bytes: the antenna entry reports the registers off exactly when
      offsets 70 to 73 hold 0xef, 0xbe, 0xaf and 0xde, and otherwise carries
      the register as eight lower-case digits, most significant first. */
  lemma DecodedAntenna(frame: seq<byte>)
    requires |frame| >= 76
    ensures BuildRecord(ByteFields(frame))[32].1 == Label(
      if frame[70] == 0xef && frame[71] == 0xbe && frame[72] == 0xaf && frame[73] == 0xde
      then "ANTENNA - 0xDEAFBEEF"
      else AntennaOnPrefix + HexFixed(LE32(frame, 70), 8))
  {
    AntennaEntry(ByteFields(frame));
    RegisterOffValue(frame);
    RegisterValueBytes(frame);
  }

  /** On the bytes: "Default Vals OUTs 1:6" shows offset 66, the low byte of
      the battery internal resistance word. */
  lemma DecodedDefaultOuts(frame: seq<byte>)
    requires |frame| >= 76
    ensures BuildRecord(ByteFields(frame))[30].1 == Measurement(LE16(frame, 66), 1.4972656, Ohm)
    ensures HexReported(BuildRecord(ByteFields(frame))[29].1, LE16(frame, 66) % 256)
  {
    LowByte(frame[66] as int, frame[67] as int);
    RecordHexEntries(ByteFields(frame));
    PyHexReported(frame[66] as int);
  }

  lemma LowByte(lo: nat, hi: nat)
    requires lo < 256
    ensures (lo + 256 * hi) % 256 == lo
  {
  }

  /** The record ignores the header and size bytes (offsets 0 and 1), the
      battery cell 3 and 4 words (40 to 43), the reserved bytes 50 and 51 and
      everything after offset 75. */
  lemma UnreadFrameBytes(a: seq<byte>, b: seq<byte>)
    requires |a| >= 76 && |b| >= 76
    requires forall k :: 2 <= k < 76 && !(40 <= k < 44) && k != 50 && k != 51 ==> a[k] == b[k]
    ensures BuildRecord(ByteFields(a)) == BuildRecord(ByteFields(b))
  {
    var fa, fb := ByteFields(a), ByteFields(b);
    assert LE32(a, 70) == LE32(b, 70);
    assert fb == fa.(tBatt3 := fb.tBatt3, tBatt4 := fb.tBatt4);
    CellsThreeAndFourUnreported(fa, fb.tBatt3, fb.tBatt4);
  }
}
