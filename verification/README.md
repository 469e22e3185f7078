# PHOENIX beacon parser, modelled in Dafny

`parse_PHOENIX.py` decodes one PHOENIX-mode UHF beacon. It
reads the beacon file, strips ASCII whitespace from both ends, writes every byte
as two lower-case hex digits, cuts that text back into two-digit pairs, and
takes the header pair, the size pair and the payload (every pair but the
first). It then reads 16-bit words out of the payload, each as
`int(payload[k+1] + payload[k], 16)`, so the high byte is the later pair. From
these words it builds a 34-entry ordered record. That record holds:

- the operating mode;
- scaled voltages and currents;
- battery temperatures decoded by `format_temp`;
- `hex()` strings of the condition and counter words, except the power-on counter, which stays a plain integer;
- the UHF antenna register string, compared with `"deafbeef"`;
- the status control word.

The model has five modules:

- `Hex`: the text forms of bytes the parser uses.
  - `binascii.hexlify` is `Hexlify` and `HexPair`.
  - `int(s, 16)` is `ParseHex`. It accepts both letter cases.
  - `hex(n)` is `PyHex`.
  - The zero-padded form `HexFixed` is the reference for the antenna string.
- `Ingest`: `format_frame`.
  - `Strip` is `bytes.strip`.
  - `FormatFrame` is the method with the pair-splitting loop. The loop itself is `SplitPairs`.
  - `FrameView` is its functional specification.
  - The only failure is the IndexError that a too-short frame raises.
- `Temperature`: `format_temp`.
  - Python's `^` on integers is modelled bit by bit (`Xor`).
  - `>> 4` is division by 16.
- `Beacon`: `impl_struct`.
  - `Word` reads the words.
  - `ExtractFields` gathers every word the function reads.
  - `RecordValues` and `BuildRecord` are the dictionary literal, in order.
  - `Decode` is the whole parser on the file contents: `format_frame`, then `impl_struct`.
- `Layout`: an independent reference.
  - It states the beacon layout directly on the stripped bytes: absolute offsets and little-endian words (`ByteFields`).
  - Its lemmas prove that the string-based parser reads exactly that layout. The mode, antenna, default-outputs and unread-byte properties are stated on the bytes.

Stripped byte `k + 1` is payload pair `k`, so the word read from pairs
`k + 1` and `k` is the little-endian word at frame offset `k + 1`. A frame is
decoded when at least 76 bytes remain after stripping. Anything shorter fails
with IndexError: at the header or size subscript, or at the first payload read
past the end.

Notes on what the code does, which the model follows:

- `format_temp(0xFFFF)` is -0.0625, not -0.0. The negative branch never yields zero, and its largest value is -1/16 degree.
- "Default Vals OUTs 1:6" reads `payload[65]`. That is stripped byte 66, the low byte of the battery internal resistance word. It is not a separate byte at offset 65.
- The antenna register string is pairs 72, 71, 70 and 69. Those are frame offsets 73 down to 70: a little-endian 32-bit register printed most significant byte first.
- The second mode identifier 0xe7a9 is defined but never compared. Such a head word is reported as "Other", like every other value that is not 0xa1c9.

## Model

| member | source | states |
|---|---|---|
| `Temperature.FormatTemp` | parse_PHOENIX.py:37-44 | below 0x8000 the word counts 1/256 degree, in [0, 128); from 0x8000 on, the top twelve bits are a two's-complement count of 1/16 degree, in [-128, -1/16] |
| `Temperature.Xor` | parse_PHOENIX.py:42 | Python's `^` on non-negative integers: the result is at most a + b and its low bit is the parity of a + b |
| `Temperature.XorWithOnes` | parse_PHOENIX.py:42 | xor with n one-bits is the n-bit complement, which is what `^ 0xFFF` does to the shifted word |
| `Temperature.FormatTempAgainstSigned16` | parse_PHOENIX.py:37-44 | against the signed 16-bit reading at 1/256 degree, the decode is never higher, less than 1/16 degree lower, and equal exactly for non-negative words or words whose low four bits are zero |
| `Temperature.FormatTempExamples` | parse_PHOENIX.py:37-44 | 0x0100 is 1 degree, 0x8000 is -128 degrees, 0xFFFF is -0.0625 degree |
| `Hex.ParseHex` | parse_PHOENIX.py:50-85 | `int(s, 16)` of n digits is below 16^n |
| `Hex.ParseHexConcat` | parse_PHOENIX.py:50-84 | reading a + b in base 16 shifts the value of a by the number of digits of b |
| `Hex.WordFromPairs` | parse_PHOENIX.py:50-84 | two pairs read as one four-digit number give high * 256 + low, below 65536 |
| `Hex.PairValueIsParseHex` | parse_PHOENIX.py:85 | reading a pair digit by digit agrees with `int(pair, 16)` |
| `Hex.HexPair` | parse_PHOENIX.py:156 | one byte's `hexlify` form is two lower-case digits that read back as the byte |
| `Hex.HexPairInjective` | parse_PHOENIX.py:156 | different bytes have different pairs |
| `Hex.LowerPairCanonical` | parse_PHOENIX.py:163-164 | every lower-case pair is the `hexlify` form of the byte it reads as |
| `Hex.Hexlify` | parse_PHOENIX.py:156 | the hex text has two characters per byte, and characters 2k and 2k+1 are the pair of byte k |
| `Hex.HexDigits` | parse_PHOENIX.py:122-136 | the digits of `hex(n)` are a non-empty string of lower-case hex digits |
| `Hex.PyHex` | parse_PHOENIX.py:122-136 | `hex(n)` starts with "0x" followed by at least one digit |
| `Hex.HexDigitsSpec` | parse_PHOENIX.py:122-136 | the digits of `hex(n)` are non-empty, lower case, read back as n and start with 0 only for n = 0 |
| `Hex.PyHexSpec` | parse_PHOENIX.py:122-136 | `hex(n)` is "0x" followed by lower-case digits without a leading zero that read back as n |
| `Hex.HexFixedAppendByte` | parse_PHOENIX.py:83 | appending a byte's pair to a zero-padded form writes the number with that byte as its new low byte |
| `Hex.HexFixedRoundTrip` | parse_PHOENIX.py:83 | a zero-padded form reads back as the number it was made from |
| `Hex.HexFixedInjective` | parse_PHOENIX.py:90 | numbers below 16^width have equal zero-padded forms only when equal |
| `Hex.Upper` | parse_PHOENIX.py:135 | `.upper()` keeps the length, leaves no lower-case ASCII letter, and keeps a hex string a hex string with the same digit values |
| `Ingest.SkipLeading` | parse_PHOENIX.py:153 | the first position not holding ASCII whitespace, with only whitespace before it |
| `Ingest.SkipTrailing` | parse_PHOENIX.py:153 | the end of the text once trailing ASCII whitespace is dropped, with only whitespace after it |
| `Ingest.Strip` | parse_PHOENIX.py:153 | `strip()` keeps a contiguous slice, drops only whitespace bytes on both sides, and neither keeps whitespace at either end |
| `Ingest.StripIdempotent` | parse_PHOENIX.py:153 | stripping a stripped frame changes nothing |
| `Ingest.FrameView` | parse_PHOENIX.py:153-173 | parts exist exactly when two bytes remain after stripping; the header is the lower-case pair of byte 0, the payload has one lower-case pair per byte after the first that reads back as that byte, and the size pair is the first payload entry |
| `Ingest.PairsOf` | parse_PHOENIX.py:163-164 | `frame_array` has one entry per stripped byte, each two lower-case hex digits that read back as that byte |
| `Ingest.SplitPairs` | parse_PHOENIX.py:158-164 | the loop yields half as many entries as there are characters, entry k being characters 2k and 2k+1 |
| `Ingest.FormatFrame` | parse_PHOENIX.py:153-183 | stripping, hexlifying, splitting and slicing yield exactly the parts of `FrameView`, or the IndexError when it has none |
| `Beacon.Word` | parse_PHOENIX.py:50-84 | `int(payload[hi] + payload[lo], 16)` is a 16-bit word whose high byte is the pair at hi and whose low byte is the pair at lo |
| `Beacon.WordAssembly` | parse_PHOENIX.py:50-84 | each word is the base-16 reading of the concatenated pairs; the later pair is the high byte, the earlier the low byte, both below 256 |
| `Beacon.ExtractFields` | parse_PHOENIX.py:49-85 | the field reads are 16-bit words, and `def2` is always `r_batt` mod 256 because both read `payload[65]` |
| `Beacon.RecordValues` | parse_PHOENIX.py:102-137 | one value per key; exactly entries 19-21, 23-25, 28, 29 and 33 are `hex()` text, and exactly entry 22, the power-on counter, is a plain integer |
| `Beacon.BuildRecord` | parse_PHOENIX.py:102-137 | the record has 34 entries whose keys are those of the literal, in its order |
| `Beacon.ImplStruct` | parse_PHOENIX.py:46-137 | `impl_struct` builds 34 entries under the literal's keys in order; the resistance entry is the word of pairs 66 and 65, and "Default Vals OUTs 1:6" is the `hex()` of its low byte |
| `Beacon.Decode` | parse_PHOENIX.py:206-207 | the parser yields a record exactly when at least 76 bytes remain after stripping, and the IndexError otherwise |
| `Beacon.RecordKeys` | parse_PHOENIX.py:102-137 | the record has 34 entries under pairwise different keys, in the literal's order; "Default Vals OUTs 1:6" directly precedes "Battery Internal Resistance" |
| `Beacon.LabelsDistinct` | parse_PHOENIX.py:102-137 | no two keys of the literal coincide, so the dictionary keeps all 34 |
| `Beacon.PyHexReported` | parse_PHOENIX.py:122 | a `hex()` entry is "0x" and lower-case digits without a leading zero that read back as the raw word |
| `Beacon.RecordValueKinds` | parse_PHOENIX.py:122-136 | the power-on counter is a plain integer; every other counter and condition word is `hex()` text that reads back as its raw word |
| `Beacon.AntennaEntry` | parse_PHOENIX.py:135 | a register string equal to "deafbeef" is shown as "ANTENNA - 0xDEAFBEEF"; any other string is shown after the connected-deployed prefix, unchanged |
| `Beacon.CellsThreeAndFourUnreported` | parse_PHOENIX.py:69-70 | the battery cell 3 and 4 words do not influence the record |
| `Layout.PayloadWord` | parse_PHOENIX.py:50-84 | on a formatted frame, the word from pairs k+1 and k is the little-endian word at frame offset k+1 |
| `Layout.RegisterString` | parse_PHOENIX.py:83 | pairs 72, 71, 70 and 69 concatenated are the 32-bit little-endian register at offsets 70-73, written as eight zero-padded digits |
| `Layout.ExtractFieldsFollowsLayout` | parse_PHOENIX.py:49-85 | every field `impl_struct` reads from the pairs equals the one read straight off the bytes at its absolute offset |
| `Layout.DecodeFollowsLayout` | parse_PHOENIX.py:46-85 | the whole parser yields the record of the stripped bytes' layout when at least 76 bytes remain, and the IndexError otherwise |
| `Layout.DecodedMode` | parse_PHOENIX.py:88-103 | the mode is PHOENIX exactly when offsets 2 and 3 hold 0xc9 and 0xa1; the head word 0xe7a9 is reported as "Other" |
| `Layout.RegisterValueBytes` | parse_PHOENIX.py:83 | the register fits 32 bits and is 0xdeafbeef exactly when offsets 70-73 hold 0xef, 0xbe, 0xaf, 0xde |
| `Layout.RegistersOffForm` | parse_PHOENIX.py:90 | "deafbeef" is the eight-digit form of 0xdeafbeef |
| `Layout.RegisterOffValue` | parse_PHOENIX.py:90 | the register string is "deafbeef" exactly when the register value is 0xdeafbeef |
| `Layout.DecodedAntenna` | parse_PHOENIX.py:135 | the antenna entry shows the registers-off text exactly when offsets 70-73 hold 0xef, 0xbe, 0xaf, 0xde, and otherwise the register as eight lower-case digits |
| `Layout.DecodedDefaultOuts` | parse_PHOENIX.py:81-85 | "Default Vals OUTs 1:6" is the `hex()` text of the low byte of the battery internal resistance word |
| `Layout.UnreadFrameBytes` | parse_PHOENIX.py:49-85 | stripped frames that agree outside offsets 0-1, 40-43, 50-51 and 76 onwards give the same record |

## Left out

- `app_info` and the argument handling of `main` (parse_PHOENIX.py:6-35, 185-210) are command-line glue. Only the `format_frame` then `impl_struct` call sequence is modelled (`Decode`).
- Opening and reading the beacon file (parse_PHOENIX.py:149-152) is I/O. `FormatFrame` and `Decode` take the file contents as bytes.
- Printing the record with `pprint` and ignoring `KeyboardInterrupt` (parse_PHOENIX.py:139-144) is I/O. `impl_struct`'s constant return value 0 is not modelled, and neither are the commented-out prints (parse_PHOENIX.py:177-180).
- The unused values `separate_chunks` and `payload_bytes_visual` (parse_PHOENIX.py:155, 174) are not modelled.
- The dictionary is modelled as its ordered list of (key, value) entries, which is what `pprint(..., sort_dicts=False)` shows. The one- and two-element value lists are modelled as `Value` variants that carry the unit.
- Only the four units the record uses are modelled. "[mV]" and "[A]" are never referenced.
- Binary64 scaling of the measurement words (parse_PHOENIX.py:104-119, 133-134) is floating point.
  - A `Measurement` keeps the raw word and the exact decimal factor.
  - The MCU temperature keeps its raw word and the formula's three constants 0.0006103516, 0.986 and 0.00355 (`McuReading`); the formula is not evaluated.
  - `format_temp` is exact, because both of its scales are powers of two.
- `Hex.ParseHex` requires a non-empty string of plain hex digits. `int(s, 16)` also accepts a sign, a `0x` or `0X` prefix, surrounding whitespace and underscores between digits, and raises ValueError on other text. None of that is modelled: every payload entry comes from `hexlify`, which produces plain digit strings only.
- `Hex.Upper` converts ASCII letters only. That covers every character of a hex string, and it is only applied to "deafbeef".
- No AX.25 framing and no frame check sequence are modelled. The code only slices fixed positions.
