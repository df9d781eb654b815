# Verified models of the device libraries

Dafny models of four components of the repository, with proofs of what they are for.

* **The QR Code encoder** (`espressif__qrcode/qrcodegen.c`, ISO/IEC 18004:2015). The field GF(2^8), the Reed-Solomon
  codewords, their interleaving, the bit strings of the segments, the choice of version and level, the zigzag
  placement, the masks and the penalty score are modelled as the loops over buffers that they are, and each is proved
  against a specification of its own. The last module puts them together: from the modules of the symbol that
  `qrcodegen_encodeSegmentsAdvanced` returns, and from nothing else, a decoder gets the segments back, for every
  version, level and mask.
* **The engine of the mDNS responder** (`espressif__mdns`). The compressing writer of names and its recursive reader,
  TXT records, the tie-break between hosts, the transmit queue that the timer and the service task share, and the
  probing state machine. The last two are state machines whose steps are the sections that run under the service lock;
  what is proved holds in every state of every run, or the runs are characterized in which it does.
* **PBKDF2** (`esp_pbkdf2_hmac_sha256`, section 5.2 of RFC 8018), for any function in the place of the keyed hash.
* **The civil date arithmetic** of `esp_daylight.c`, for all years.

## Files

`Options`, `Arithmetic`, `BitStrings`, `Bytes`, `Finite` and `Algebra` are the groundwork. The encoder is
`GaloisField`, `PowersOfTwo`, `Polynomials`, `Distance`, `ReedSolomon`, `Capacity`, `Interleaving`, `BitBuffer`,
`Segments`, `TextSegments`, `EciSegments`, `DataEncoder`, `Grids`, `Zigzag`, `Alignment`, `FunctionModules`,
`BchCodes`, `FunctionPatterns`, `FunctionCount`, `Appearance`, `Masks`, `Runs`, `Penalties`, `LinePatterns`,
`PictureScores`, `MaskChoice` and `Encoder`. The responder is `DnsName`, `DnsRoundTrip`, `DnsParse`, `TxtRecords`,
`Collisions`, `TxQueue` and `Probing`. `Pbkdf2` and `CivilDate` stand alone.

## How the source is represented

* A byte of the encoder is the sequence of its eight bits, least significant first, so that nothing can carry out of
  it. Octets of packets and keys are integers below 256. Other integers are unbounded; where the width matters it is
  written out: `INT16_MAX` in `getTotalBits`, the `uint8_t` length octets and `probe_services_len` (modulo 256), the
  32-bit `long` of the penalty.
* Buffers are arrays, pointers into them are offsets. `reedSolomonComputeRemainder` is given its data and its result
  in one array, as `addEccAndInterleave` does. Lists that the source links through `next` are sequences in a field of
  a class.
* The tables of the encoder lose their unused column for version 0.
* The grid is modelled for every odd side length from 9 on; format bits and masks are chosen for 21 to 177.
* The packets that names are read from have one readable byte behind `packet_len`, because the second byte of a
  pointer is read without a test. The buffer that names are written to has 256 readable bytes behind a packet, because
  the search for an earlier occurrence compares whole strings. `CONFIG_MDNS_RESPOND_REVERSE_QUERIES` is a parameter.
  `MDNS_MAX_PACKET_SIZE` is 1460, `MDNS_NAME_REF` 0xC000.
* In `TxQueue` a packet's address is a number that is not used again, and the clock does not wrap. A full action queue
  and a failed allocation are outcomes that the environment chooses for each post. The counter of scheduled packets is
  there to state "first come, first served".
* In `Probing` the packets of one pair of interface and protocol are counted by kind; the order in which they are sent
  is the subject of `TxQueue`. Whether there is a host name, memory, and a packet are choices of the environment, but
  a run of `ListSafety` does not lose its host name: `mdns_hostname_set` rejects an empty one (`mdns_responder.c`,
  line 596), a conflict only replaces it by a mangled one (`mdns_receive.c`, lines 996, 1129 and 1189), and
  `mdns_free` ends the run before it frees the name (`mdns_service.c`, lines 391 to 413). A received packet may start
  probing in any state, whether or not the interface is ready. What `mdns_priv_pcb_disable` does for the other
  interface, if that is a duplicate (`mdns_pcb.c`, lines 161 to 164), is two steps of that one. The functions that
  copy the list stop before the first write past its allocation and report it; what such a write does is not part of
  this model.
* `esp_hmac_calculate` is an arbitrary function, and an arbitrary call of it may fail.

## Where the code does less than one might expect

* A timer tick that fails to post one packet goes on with the next (`mdns_send.c`, line 1738). If that post succeeds,
  its action is skipped later (`TxQueue.TickSkips`), and the packet can block the queue for good, with or without
  packets being freed (`TxQueue.FailureThenSuccessBlocks`, `TxQueue.BlocksWithoutFreeing`). The invariant is kept
  exactly by the ticks in which no post succeeds after a failed one.
* The parser starts to probe on the interface of a packet without asking whether it is ready (`mdns_receive.c`, line
  1079), and `mdns_priv_pcb_disable` clears the block only of a ready one (`mdns_pcb.c`, line 157). A list can so be
  left behind in a pair that is off, and the next start then copies it past its allocation (`Probing.AbandonedList`).
* The length of the list of probed services is kept in eight bits: of 256 services and more, only as many as the
  remainder modulo 256 are held (`Probing.RestartUnion`).
* While a pair announces, every packet that it sends counts as one of its three announcements and is scheduled again,
  answers included (`mdns_pcb.c`, lines 245 to 256). A pair can so start to run after fewer announcements
  (`Probing.AnswersCount`); `Probing.AnnounceSafety` says exactly when.
* The TXT parser skips a byte too many behind an item without `=`; such an item comes back only as the last one.
* A host whose only TXT item has an empty key and no value is written like one without items. It claims to win against
  such a one, which sees no conflict (`Collisions.EmptyKeyAlone`), and two such hosts both claim to win.
* The search for a compression target may run into the name that is being written (`DnsRoundTrip.RepeatedLabel`), may
  match bytes that the pointer then replaces, and tests neither `_sub` nor the mark of an invalid name. `RoundTrip` in
  `DnsRoundTrip` says exactly when a name comes back.
* A host name of 64 octets is admitted (`mdns_responder.c`, line 596) but cannot be read back
  (`DnsRoundTrip.OverlongName`).
* An iteration count of 0 counts as 1 in `esp_pbkdf2_hmac_sha256`.

## Model

| member | source | states |
|---|---|---|
| `GaloisField.Multiply` | managed_components/espressif__qrcode/qrcodegen.c:428-437 | the Russian-peasant loop computes the product modulo 0x11D |
| `GaloisField.MulCommutative` | managed_components/espressif__qrcode/qrcodegen.c:428-437 | that product is commutative |
| `GaloisField.MulAssociative` | managed_components/espressif__qrcode/qrcodegen.c:428-437 | that product is associative |
| `GaloisField.MulDistributes` | managed_components/espressif__qrcode/qrcodegen.c:428-437 | that product distributes over exclusive or |
| `PowersOfTwo.DistinctPowers` | managed_components/espressif__qrcode/qrcodegen.c:380-403 | the roots 2^i that the divisor is made of are different for all i below 255 |
| `PowersOfTwo.InverseExists` | managed_components/espressif__qrcode/qrcodegen.c:428-437 | every byte but 0 has an inverse |
| `PowersOfTwo.FieldLaws` | managed_components/espressif__qrcode/qrcodegen.c:428-437 | bytes with exclusive or and this product form a field: a ring of characteristic 2 without zero divisors |
| `ReedSolomon.ComputeDivisor` | managed_components/espressif__qrcode/qrcodegen.c:380-403 | the array holds the generator polynomial of the degree, without its leading term, and the rest of the array is kept |
| `ReedSolomon.ComputeRemainder` | managed_components/espressif__qrcode/qrcodegen.c:408-423 | the remainder register ends up with the remainder of data times x^degree, even where data and register share one array; nothing else changes |
| `ReedSolomon.GeneratorIsProduct` | managed_components/espressif__qrcode/qrcodegen.c:380-403 | the generator is the product of (x - 2^0) ... (x - 2^(degree-1)) |
| `ReedSolomon.CodewordIsMultiple` | managed_components/espressif__qrcode/qrcodegen.c:380-423 | data followed by its remainder is a multiple of the generator |
| `ReedSolomon.CodewordVanishes` | managed_components/espressif__qrcode/qrcodegen.c:380-423 | data followed by its remainder, read as a polynomial, is zero at 2^0 ... 2^(degree-1) |
| `ReedSolomon.RootTest` | managed_components/espressif__qrcode/qrcodegen.c:380-423 | a block of at most 255 bytes is zero at all roots if and only if its tail is the remainder of its data |
| `ReedSolomon.MinimumDistance` | managed_components/espressif__qrcode/qrcodegen.c:380-423 | blocks for different data differ in more than degree bytes, so any degree errors are detected |
| `Interleaving.LayoutSizes` | managed_components/espressif__qrcode/qrcodegen.c:312-320 | for all block counts, lengths and raw sizes that leave a block of non-negative length, the blocks make up exactly the raw codewords |
| `Interleaving.SourceOfPlace` | managed_components/espressif__qrcode/qrcodegen.c:327-339 | every byte of every block goes to an index of its own |
| `Interleaving.PlaceOfSource` | managed_components/espressif__qrcode/qrcodegen.c:327-339 | every index below the raw length is filled |
| `Interleaving.PlaceOrder` | managed_components/espressif__qrcode/qrcodegen.c:327-339 | the order of the bytes: data before error correction, and in both the first bytes of all blocks, in the order of the blocks, before the second ones, and so on; the first blocks are the short ones |
| `Interleaving.BlocksTile` | managed_components/espressif__qrcode/qrcodegen.c:327-340 | the blocks lie one behind the other in the data and end with it |
| `Interleaving.CopyData` | managed_components/espressif__qrcode/qrcodegen.c:331-336 | the data loop fills exactly the places of the data of the block |
| `Interleaving.CopyEcc` | managed_components/espressif__qrcode/qrcodegen.c:337-339 | the second loop fills exactly the places of the error correction codewords of the block |
| `Interleaving.InterleaveBlocks` | managed_components/espressif__qrcode/qrcodegen.c:322-341 | the result holds the interleaved codewords, and the data, whose tail serves as scratch memory, are unchanged |
| `Interleaving.AddEccAndInterleave` | managed_components/espressif__qrcode/qrcodegen.c:310-341 | the same for every version and level of the tables |
| `Interleaving.DeinterleaveRoundTrip` | managed_components/espressif__qrcode/qrcodegen.c:304-341 | de-interleaving gives every block back with its error correction codewords |
| `Interleaving.JoinRoundTrip` | managed_components/espressif__qrcode/qrcodegen.c:304-341 | the data of the de-interleaved blocks, joined, are the data |
| `Capacity.RoomForData` | managed_components/espressif__qrcode/qrcodegen.c:346-352 | every entry of the tables leaves room for data |
| `BitBuffer.AppendBits` | managed_components/espressif__qrcode/qrcodegen.c:193-199 | the loop sets exactly the bits of the value, most significant first, behind the bit length |
| `BitBuffer.BitsOfByte` | managed_components/espressif__qrcode/qrcodegen.c:193-199 | the bits of a byte of the buffer are the binary digits of its number, most significant first |
| `Segments.SegmentStarts` | managed_components/espressif__qrcode/qrcodegen.c:249 | the four bits of each mode indicator |
| `Segments.CountWidths` | managed_components/espressif__qrcode/qrcodegen.c:1100-1124 | the widths of all character counts: they change with versions 10 and 27 |
| `Segments.TotalBits` | managed_components/espressif__qrcode/qrcodegen.c:1074-1095 | the number of bits of all segments, or an error exactly if a count does not fit its field or the sum exceeds INT16_MAX |
| `Segments.ParseSegment` | managed_components/espressif__qrcode/qrcodegen.c:252-261 | the bits of a segment parse back to its mode, count and payload |
| `Segments.ParseData` | managed_components/espressif__qrcode/qrcodegen.c:249-261 | the bits of all segments, those of ECI segments included, parse back to the same modes, counts and payloads |
| `TextSegments.MakeNumeric` | managed_components/espressif__qrcode/qrcodegen.c:969-1001 | the segment holds the digits in groups of three, with the number of bits of the closed form |
| `TextSegments.DigitsPacked` | managed_components/espressif__qrcode/qrcodegen.c:984-998 | three digits abc are the number 100a + 10b + c in 10 bits, two that remain take 7 bits, one takes 4 |
| `TextSegments.NumericRoundTrip` | managed_components/espressif__qrcode/qrcodegen.c:969-1001 | decoding the packed digits gives the text back |
| `TextSegments.MakeAlphanumeric` | managed_components/espressif__qrcode/qrcodegen.c:1006-1038 | the segment holds the characters in pairs, with the number of bits of the closed form |
| `TextSegments.CharactersPacked` | managed_components/espressif__qrcode/qrcodegen.c:1021-1035 | two characters are 45 times the place of the first in the set plus that of the second, in 11 bits, one that remains its place in 6 bits |
| `TextSegments.AlphanumericRoundTrip` | managed_components/espressif__qrcode/qrcodegen.c:1006-1038 | decoding the packed characters gives the text back |
| `EciSegments.MakeEci` | managed_components/espressif__qrcode/qrcodegen.c:1043-1068 | the segment holds the designator of the assignment number in one, two or three bytes, whose first bits tell how many |
| `EciSegments.DesignatorBits` | managed_components/espressif__qrcode/qrcodegen.c:1047-1062 | 0 and seven bits up to 127, 10 and fourteen bits up to 16383, 110 and twenty-one bits for larger numbers |
| `EciSegments.EciRoundTrip` | managed_components/espressif__qrcode/qrcodegen.c:1043-1068 | decoding the designator gives the assignment number back |
| `DataEncoder.ChooseVersion` | managed_components/espressif__qrcode/qrcodegen.c:222-245 | the smallest version that fits, or an error if none does; the boosted level is the highest that fits and never below the one asked for |
| `DataEncoder.WriteZeros` | managed_components/espressif__qrcode/qrcodegen.c:265-273 | terminator and alignment zeros follow the data and stay within the capacity |
| `DataEncoder.ZeroLenLeast` | managed_components/espressif__qrcode/qrcodegen.c:265-273 | they are the fewest that include a terminator of four, unless the capacity comes first, and end on a byte |
| `DataEncoder.WritePadBytes` | managed_components/espressif__qrcode/qrcodegen.c:275-278 | alternating 0xEC and 0x11 end exactly at the capacity |
| `DataEncoder.PadByteAt` | managed_components/espressif__qrcode/qrcodegen.c:276 | the bits of every pad byte, starting with 11101100 |
| `DataEncoder.DecodeCodewords` | managed_components/espressif__qrcode/qrcodegen.c:247-278 | the data codewords, with terminator and padding, parse back to the segments |
| `DataEncoder.EncodeData` | managed_components/espressif__qrcode/qrcodegen.c:219-278 | the encoder up to its data codewords: version, level and buffer contents |
| `Grids.GetModule` | managed_components/espressif__qrcode/qrcodegen.c:831-836 | reads the module at column x and row y |
| `Grids.SetModule` | managed_components/espressif__qrcode/qrcodegen.c:841-853 | changes the bit of one module |
| `Grids.PutModule` | managed_components/espressif__qrcode/qrcodegen.c:831-853 | setting a module is seen at this module and at no other |
| `Zigzag.TimeOfScan` | managed_components/espressif__qrcode/qrcodegen.c:622-647 | the scan of any odd side length from 9 on visits no module twice |
| `Zigzag.ScanOfTime` | managed_components/espressif__qrcode/qrcodegen.c:622-647 | the scan visits every module outside column 6 |
| `Zigzag.ScanStart` | managed_components/espressif__qrcode/qrcodegen.c:627-635 | in symbols, whose side is 1 more than a multiple of 4, the scan starts at the bottom right |
| `Zigzag.ScanOrder` | managed_components/espressif__qrcode/qrcodegen.c:627-635 | every further step: left and right alternate, every second step goes one row on, upward in the first pair of columns and in the other direction in each next one; from a pair the scan goes on in the same row, in the next column on the left, passing over column 6 |
| `Zigzag.StillFunctionModule` | managed_components/espressif__qrcode/qrcodegen.c:637 | testing the grid that is being written is the same as testing the function modules |
| `Zigzag.DrawCodewords` | managed_components/espressif__qrcode/qrcodegen.c:622-647 | the free modules hold the bits in the order of the scan that ScanOrder tells, all other modules are unchanged, and every bit is drawn |
| `Zigzag.ReadBack` | managed_components/espressif__qrcode/qrcodegen.c:622-647 | reading along the scan gives the codeword bits back, followed by white remainder modules |
| `Zigzag.FunctionModulesStay` | managed_components/espressif__qrcode/qrcodegen.c:637-643 | function modules and column 6 are unchanged |
| `Alignment.GetAlignmentPatternPositions` | managed_components/espressif__qrcode/qrcodegen.c:590-603 | the array holds the positions, counted back from the last one |
| `Alignment.PosSpacing` | managed_components/espressif__qrcode/qrcodegen.c:590-603 | the positions ascend at least 12 apart from 6 to 4 * version + 10 |
| `Alignment.PosGaps` | managed_components/espressif__qrcode/qrcodegen.c:595-602 | all gaps but the first are equal: 26 for version 32, otherwise the smallest even number of which as many as there are gaps reach from the first position to the last |
| `FunctionModules.FillRectangle` | managed_components/espressif__qrcode/qrcodegen.c:607-613 | blackens exactly the modules of the rectangle |
| `FunctionModules.InitializeFunctionModules` | managed_components/espressif__qrcode/qrcodegen.c:445-477 | exactly the function modules are black |
| `FunctionPatterns.DrawWhiteFunctionModules` | managed_components/espressif__qrcode/qrcodegen.c:484-543 | the function modules show the timing, finder and alignment patterns and the version bits, over black |
| `FunctionPatterns.ComputeVersion` | managed_components/espressif__qrcode/qrcodegen.c:527-532 | the loop computes the version bits |
| `FunctionPatterns.VersionsApart` | managed_components/espressif__qrcode/qrcodegen.c:527-532 | the first six version bits tell the version, and those of two versions differ in at least 8 of 18 places |
| `FunctionPatterns.VersionWord` | managed_components/espressif__qrcode/qrcodegen.c:527-532 | the version bits of version 7 as the standard tabulates them |
| `Appearance.FinderLook` | managed_components/espressif__qrcode/qrcodegen.c:493-506 | the corners show three finder patterns, 7x7 frames around 3x3 squares, with white separators |
| `Appearance.TimingLook` | managed_components/espressif__qrcode/qrcodegen.c:486-491 | row 6 and column 6 alternate between the corners, dark at even places, also where alignment patterns cross them |
| `Appearance.AlignmentLook` | managed_components/espressif__qrcode/qrcodegen.c:508-522 | every alignment pattern is a dark 5x5 frame, a white one, and a dark center |
| `Appearance.VersionLook` | managed_components/espressif__qrcode/qrcodegen.c:534-542 | where both copies of the version bits are |
| `FunctionPatterns.DesignKeepsOthers` | managed_components/espressif__qrcode/qrcodegen.c:480-483 | modules other than function modules are unchanged |
| `FunctionCount.RankIsFreeCells` | managed_components/espressif__qrcode/qrcodegen.c:622-647 | the scan comes to each module that is not a function module once |
| `FunctionCount.FreeModules` | managed_components/espressif__qrcode/qrcodegen.c:355-373 | the modules that are not function modules are as many as the closed form of getNumRawDataModules says, for every version |
| `Masks.ApplyMask` | managed_components/espressif__qrcode/qrcodegen.c:655-680 | inverts the modules of the mask pattern that are not function modules, and no others |
| `Masks.Chessboards` | managed_components/espressif__qrcode/qrcodegen.c:666-670 | masks 0 and 4 are chessboards with fields of one by one and of three by two modules |
| `Masks.Stripes` | managed_components/espressif__qrcode/qrcodegen.c:667-669 | mask 1 inverts every second row, mask 2 every third column, mask 3 every third diagonal |
| `Masks.ProductMasks` | managed_components/espressif__qrcode/qrcodegen.c:671-673 | mask 5 inverts where 6 divides x * y, mask 6 where the remainder is below 3, mask 7 where x and y have the same parity or x * y leaves 1 modulo 3, but not both |
| `Masks.MaskInvolution` | managed_components/espressif__qrcode/qrcodegen.c:650-680 | applying a mask twice undoes it |
| `Masks.DrawFormatBits` | managed_components/espressif__qrcode/qrcodegen.c:550-583 | draws both copies of the format bits and the dark module, and nothing else |
| `Masks.ComputeFormat` | managed_components/espressif__qrcode/qrcodegen.c:553-561 | the loop computes the format bits |
| `Masks.FormatsApart` | managed_components/espressif__qrcode/qrcodegen.c:553-561 | the format bits of different levels or masks differ in at least 7 of 15 places |
| `Masks.FormatWords` | managed_components/espressif__qrcode/qrcodegen.c:553-561 | the format bits of the four levels with mask 0 as the standard tabulates them |
| `Masks.FormatPlaces` | managed_components/espressif__qrcode/qrcodegen.c:564-583 | where every bit of both copies and the dark module are |
| `Masks.FormatOverwrites` | managed_components/espressif__qrcode/qrcodegen.c:550-583 | format bits overwrite each other fully |
| `Masks.FormatCommutes` | managed_components/espressif__qrcode/qrcodegen.c:550-583 | format bits touch function modules only, so they do not interfere with masks |
| `Masks.FormatReadBack` | managed_components/espressif__qrcode/qrcodegen.c:564-572 | the format bits can be read from the first copy |
| `Masks.FormatMeaning` | managed_components/espressif__qrcode/qrcodegen.c:554-561 | the format bits tell level and mask |
| `MaskChoice.TryMask` | managed_components/espressif__qrcode/qrcodegen.c:289-298 | trying a mask leaves the symbol as it was, apart from the format bits, which the next try overwrites |
| `MaskChoice.FindMask` | managed_components/espressif__qrcode/qrcodegen.c:287-299 | the loop finds the mask with the lowest penalty, of those with the same penalty the first |
| `MaskChoice.DrawMask` | managed_components/espressif__qrcode/qrcodegen.c:286-303 | the finished symbol is the candidate of that mask, or of the mask asked for |
| `Runs.SpellRuns` | managed_components/espressif__qrcode/qrcodegen.c:689-714 | the run lengths of a line spell the line |
| `Runs.RunsUnique` | managed_components/espressif__qrcode/qrcodegen.c:689-714 | no other alternating run lengths do |
| `Runs.PaddedRuns` | managed_components/espressif__qrcode/qrcodegen.c:691-713 | the white border lengthens the first and the last run |
| `Penalties.CountPatterns` | managed_components/espressif__qrcode/qrcodegen.c:774-783 | counts the 1:1:3:1:1 patterns in the last seven runs, as WindowsCount tells |
| `LinePatterns.WindowsCount` | managed_components/espressif__qrcode/qrcodegen.c:774-783 | these counts add up to the number of places and sides in the line, told by its modules: dark, light, dark, light, dark stretches of m, m, 3m, m, m modules between light ones, at least 4m on the one side and m on the other |
| `LinePatterns.StretchScores` | managed_components/espressif__qrcode/qrcodegen.c:697-703 | the scores of the runs are 1 for every five modules of one color in a row and 2 for every stretch of five or more |
| `LinePatterns.LineMeaning` | managed_components/espressif__qrcode/qrcodegen.c:690-739 | the score of a line by these counts, with 40 for each pattern and side, without reference to runs |
| `Penalties.TerminateAndCount` | managed_components/espressif__qrcode/qrcodegen.c:787-796 | ends the line with the white border and counts |
| `Penalties.AddHistory` | managed_components/espressif__qrcode/qrcodegen.c:800-804 | pushes a run to the front of the history |
| `Penalties.ScanLine` | managed_components/espressif__qrcode/qrcodegen.c:690-739 | the loop over a row or column computes 3 + (n - 5) for each maximal run of n >= 5 and 40 for each finder-like pattern of the line between white borders |
| `Penalties.CountBlocks` | managed_components/espressif__qrcode/qrcodegen.c:741-751 | 3 for each 2x2 block of one color |
| `PictureScores.BlocksMeaning` | managed_components/espressif__qrcode/qrcodegen.c:743-751 | the blocks counted are all 2x2 blocks of one color |
| `Penalties.BalanceFormula` | managed_components/espressif__qrcode/qrcodegen.c:762-764 | the closed form is the smallest k >= 0 with |20 black - 10 total| <= (k + 1) total, for odd totals |
| `Penalties.GetPenaltyScore` | managed_components/espressif__qrcode/qrcodegen.c:685-767 | the score is the sum of these |
| `PictureScores.PenaltyMeaning` | managed_components/espressif__qrcode/qrcodegen.c:685-767 | the score by the sizes of the sets of what is penalized in rows, columns, blocks and balance, without reference to the loops |
| `PictureScores.PenaltyTransposed` | managed_components/espressif__qrcode/qrcodegen.c:689-740 | rows and columns count alike: the transposed picture has the same score |
| `Penalties.PenaltyBound` | managed_components/espressif__qrcode/qrcodegen.c:287 | every score is below LONG_MAX of 32 bits, so that the first mask is always taken |
| `Encoder.DrawCodewordsAndFunctions` | managed_components/espressif__qrcode/qrcodegen.c:280-285 | after drawing, the picture carries exactly the interleaved codewords, and the other buffer the function modules |
| `Encoder.ReadSymbol` | managed_components/espressif__qrcode/qrcodegen.c:280-303 | a decoder that removes the mask and reads along the scan gets the codewords back, whichever mask was chosen |
| `Encoder.DecodeSymbol` | managed_components/espressif__qrcode/qrcodegen.c:215-305 | a decoder that knows level and mask gets the segments back from the modules |
| `Encoder.ModulesDecode` | managed_components/espressif__qrcode/qrcodegen.c:215-305 | side length and format bits of the finished symbol tell the decoder version, level and mask |
| `Encoder.SymbolLook` | managed_components/espressif__qrcode/qrcodegen.c:278-298 | the finished symbol, whatever its data and mask, shows the finder patterns, separators and timing patterns |
| `Encoder.SymbolAlignment` | managed_components/espressif__qrcode/qrcodegen.c:278-298 | and all alignment patterns |
| `Encoder.EncodeSegmentsAdvanced` | managed_components/espressif__qrcode/qrcodegen.c:215-305 | the whole encoder: smallest version, boosted level, best mask, drawn patterns, and a symbol that decodes to the segments from its modules alone |
| `DnsName.ReadFqdn` | managed_components/espressif__mdns/mdns_utils.c:18-69 | the in-place reader computes the recursive definition of reading a name |
| `DnsName.ReadSafety` | managed_components/espressif__mdns/mdns_utils.c:18-69 | for every byte string the reader ends, no string outgrows its buffer, and the position returned lies behind the start and at most one past the end |
| `DnsName.ReadIsScan` | managed_components/espressif__mdns/mdns_utils.c:18-69 | whether and where a name ends does not depend on what was read before, and the name is made of the labels on the way |
| `DnsName.KnownNames` | managed_components/espressif__mdns/mdns_utils.c:15-50 | the names that the reader knows: local, arpa, ip6, in-addr and _sub |
| `DnsName.SameLetters` | managed_components/espressif__mdns/mdns_utils.c:41-50 | names are compared up to the case of letters |
| `DnsName.AppendU16` | managed_components/espressif__mdns/mdns_utils.c:262-270 | two octets, most significant first, or nothing if there is no room |
| `DnsName.AppendString` | managed_components/espressif__mdns/mdns_send.c:103-113 | the length octet and the string, or nothing if there is no room |
| `DnsName.FindName` | managed_components/espressif__mdns/mdns_send.c:692-724 | the first position whose length byte starts a name that reads as the rest of the strings |
| `DnsName.SearchFirst` | managed_components/espressif__mdns/mdns_send.c:692-724 | no position before the one found, and none at all if none is found, matches |
| `DnsName.AppendFqdn` | managed_components/espressif__mdns/mdns_send.c:678-739 | the compressing writer: labels until the rest is found in the packet, then a pointer |
| `DnsRoundTrip.RoundTrip` | managed_components/espressif__mdns/mdns_send.c:678-739 | a written name reads back, up to case, at the index that the writer returned and with nothing else, if and only if the search finds nothing, or finds a name that starts before the new one and that, as it reads with the pointer in place, consists of the strings it stands for; what stands before the name is unchanged and the reported length is the length written |
| `DnsRoundTrip.KnownBefore` | managed_components/espressif__mdns/mdns_send.c:678-739 | if the name found does not reach across the place of the pointer, this is the case if and only if it ends before the pointer, reads without "_sub" and without the mark of an invalid name, and does not end in a pointer to an empty name if the new name has four labels |
| `DnsRoundTrip.CircularName` | managed_components/espressif__mdns/mdns_send.c:699-711 | a name whose pointer leads to its own start or behind, or to an older name that runs into the pointer, cannot be read, in any packet |
| `DnsRoundTrip.OverlongName` | managed_components/espressif__mdns/mdns_send.c:103-113 | a name with a string of 64 to 191 octets, such as the longest host name that mdns_hostname_set admits, cannot be read in any packet |
| `DnsRoundTrip.SelfReference` | managed_components/espressif__mdns/mdns_utils.c:56-61 | a pointer to the start of the name that is being read, or to what is behind it, is refused |
| `DnsRoundTrip.RepeatedLabel` | managed_components/espressif__mdns/mdns_send.c:699-711 | an instance: in an empty packet, a name that repeats its first label gets a pointer to itself and cannot be read |
| `DnsParse.ParseFqdn` | managed_components/espressif__mdns/mdns_utils.c:71-103 | host, service, protocol and domain go to their places, and names outside local and arpa are marked invalid |
| `DnsParse.InvalidNames` | managed_components/espressif__mdns/mdns_utils.c:99-102 | for every packet: a name is marked invalid exactly if the reader marked it, or it has one string, or its last string is neither local nor arpa |
| `DnsParse.DottedHost` | managed_components/espressif__mdns/mdns_utils.c:40-49 | a second label that starts no service and is no domain is joined to the host name by a dot |
| `DnsParse.SecondLabels` | managed_components/espressif__mdns/mdns_utils.c:40-47 | which second labels are not: service types, domains, and those of reverse queries unless these are answered |
| `DnsParse.SubtypeName` | managed_components/espressif__mdns/mdns_utils.c:50-51 | the label _sub is only remembered |
| `DnsParse.FifthLabel` | managed_components/espressif__mdns/mdns_utils.c:24-26 | a fifth label makes the name invalid |
| `DnsParse.ParseRoundTrip` | managed_components/espressif__mdns/mdns_utils.c:71-103 | a written name of two to four labels is parsed into the places of its strings, and not marked invalid, under exactly the condition of RoundTrip |
| `DnsParse.ParseForeign` | managed_components/espressif__mdns/mdns_utils.c:99-102 | under the condition of RoundTrip, a written name in another domain has its strings in the same places, and is marked invalid |
| `TxtRecords.AppendEntry` | managed_components/espressif__mdns/mdns_send.c:115-133 | the length octet, the key, and = with the value if there is one; nothing if the entry does not fit |
| `TxtRecords.AppendEntries` | managed_components/espressif__mdns/mdns_send.c:1016-1034 | all entries one behind the other, or a failure if they do not fit the packet |
| `TxtRecords.GetItemsCount` | managed_components/espressif__mdns/mdns_receive.c:181-203 | counts the entries, -1 if one runs past the end |
| `TxtRecords.GetItemLen` | managed_components/espressif__mdns/mdns_receive.c:208-219 | the length of the key, -1 if it is empty |
| `TxtRecords.ResultTxtCreate` | managed_components/espressif__mdns/mdns_receive.c:224-316 | for every byte string, only bytes inside are read, and at most as many items are filled as were counted |
| `TxtRecords.TxtRoundTrip` | managed_components/espressif__mdns/mdns_receive.c:224-316 | parsing the entries gives the items back if and only if no value is empty and only the last one is missing |
| `TxtRecords.ValueLost` | managed_components/espressif__mdns/mdns_receive.c:276-283 | an item without = that is not the last makes the parser skip a byte: concrete items that do not come back |
| `TxtRecords.ParsedSize` | managed_components/espressif__mdns/mdns_receive.c:249-304 | items that were parsed take no more bytes than the data |
| `Collisions.AppendTxtData` | managed_components/espressif__mdns/mdns_send.c:1016-1034 | the entries, or one zero octet if there are none |
| `Collisions.MemCmp` | managed_components/espressif__mdns/mdns_receive.c:429 | the first different octet decides |
| `Collisions.CheckTxtCollision` | managed_components/espressif__mdns/mdns_receive.c:393-433 | the verdict on TXT data of any length: presence, then length, then octets, as TxtWinner tells |
| `Collisions.TxtWinner` | managed_components/espressif__mdns/mdns_receive.c:393-433 | who wins: with items of both, the host loses exactly if its data are shorter, or as long and smaller at the first place where they differ, and wins in the mirrored case |
| `Collisions.LargerValueWins` | managed_components/espressif__mdns/mdns_receive.c:426-431 | with one item of the same key and length each, the larger value wins |
| `Collisions.TxtVerdictsOpposite` | managed_components/espressif__mdns/mdns_receive.c:393-433 | two hosts reach opposite verdicts, and 0 exactly for the same data, if and only if neither has items that are written like none while both records hold one octet |
| `Collisions.EmptyKeyAlone` | managed_components/espressif__mdns/mdns_receive.c:393-433 | the exception at work: one item with an empty key and no value against no items |
| `Collisions.CheckSrvCollision` | managed_components/espressif__mdns/mdns_receive.c:438-490 | the verdict on SRV data: 0 without a name of our own, then length, then octets, as SrvWinner tells |
| `Collisions.SrvWinner` | managed_components/espressif__mdns/mdns_receive.c:438-490 | who wins: a host with a name loses exactly if its data are shorter, or as long and smaller at the first place where they differ |
| `Collisions.SrvOrder` | managed_components/espressif__mdns/mdns_receive.c:438-490 | by the fields of the records: the longer host name wins, then the larger priority, weight and port, then the greater host name |
| `Collisions.SrvVerdictsOpposite` | managed_components/espressif__mdns/mdns_receive.c:438-490 | two hosts in domain local reach opposite verdicts, and 0 exactly for the same record, if and only if both have names or their records are the same |
| `TxQueue.Scheduler.SendAfter` | managed_components/espressif__mdns/mdns_send.c:1628-1646 | inserts a packet behind all that are not later |
| `TxQueue.Scheduler.ClearTxQueueIf` | managed_components/espressif__mdns/mdns_send.c:1667-1687 | removes exactly the packets of the pair and keeps the order of the others |
| `TxQueue.Scheduler.SendPackets` | managed_components/espressif__mdns/mdns_send.c:1714-1746 | one timer tick: packets that are due, from the first that does not wait, are marked and posted until memory runs out |
| `TxQueue.Scheduler.SendPacket` | managed_components/espressif__mdns/mdns_send.c:1837-1848 | a packet is sent exactly if it is the head of the queue and waits |
| `TxQueue.Scheduler.ExecuteNext` | managed_components/espressif__mdns/mdns_service.c:200-219 | one action is taken and executed |
| `TxQueue.SendAfterInv` | managed_components/espressif__mdns/mdns_send.c:1628-1646 | scheduling keeps the invariant: waiting packets are not overtaken |
| `TxQueue.TimerInv` | managed_components/espressif__mdns/mdns_send.c:1714-1746 | a timer tick keeps the invariant if and only if no post succeeds after one has failed within the tick |
| `TxQueue.ExecuteInv` | managed_components/espressif__mdns/mdns_send.c:1827-1848 | executing an action keeps the invariant, also if the packet is scheduled again |
| `TxQueue.NeverSkipped` | managed_components/espressif__mdns/mdns_send.c:1837-1848 | an action for a packet that is still scheduled finds it at the head of the queue |
| `TxQueue.SentPacket` | managed_components/espressif__mdns/mdns_send.c:1837-1848 | a packet that has been sent leaves the queue, or is back in it with its new time; all others stay |
| `TxQueue.TickPostsDue` | managed_components/espressif__mdns/mdns_send.c:1724-1742 | after a tick whose posts succeed, exactly the packets wait whose time is before the time read, and pending actions are for these in the order of the queue |
| `TxQueue.DelayKept` | managed_components/espressif__mdns/mdns_send.c:1633-1724 | a new packet waits after such a tick exactly if more than its delay has passed |
| `TxQueue.RunSafety` | managed_components/espressif__mdns/mdns_send.c:1628-1746 | in every run of ticks in which no post succeeds after a failed one, the queue is in order of time and of scheduling, waiting packets form a prefix in the order of the pending actions, and no action for a scheduled packet is skipped |
| `TxQueue.TickSkips` | managed_components/espressif__mdns/mdns_send.c:1714-1746 | after a tick, executing the pending actions with nothing freed skips the action of a scheduled packet if and only if a post has succeeded after a failed one |
| `TxQueue.FailureThenSuccessBlocks` | managed_components/espressif__mdns/mdns_send.c:1734-1741 | where the condition fails: a run that ends with a packet at the head that waits for an action that is not pending |
| `TxQueue.BlocksWithoutFreeing` | managed_components/espressif__mdns/mdns_send.c:1728-1744 | such a run in which no packet is freed: the next tick posts the packet in front and then runs out of memory |
| `TxQueue.BlockedForever` | managed_components/espressif__mdns/mdns_send.c:1724-1728 | from such a state no packet is ever sent until packets are freed |
| `Probing.Block.ScheduleTxPacket` | managed_components/espressif__mdns/mdns_pcb.c:211-259 | what becomes of the pair and of the packet after it has been sent; ProbeSafety and AnnounceSafety tell what this keeps |
| `Probing.Block.InitProbeNewService` | managed_components/espressif__mdns/mdns_pcb.c:339-387 | the new list, the flags and the scheduled probe, or what is left when memory runs out; reports whether the copy stays inside the allocation, for every block |
| `Probing.Block.CopyServices` | managed_components/espressif__mdns/mdns_pcb.c:349-365 | the array holds the new services and then the old ones, unless the loop comes to write past the allocation, which is reported |
| `Probing.Block.FindMissing` | managed_components/espressif__mdns/mdns_pcb.c:400-416 | the services that are not being probed yet |
| `Probing.Block.InitPcbProbe` | managed_components/espressif__mdns/mdns_pcb.c:389-424 | scheduled packets are cleared and probing (re)starts, with the same report |
| `Probing.Block.CheckProbingServices` | managed_components/espressif__mdns/mdns_pcb.c:261-299 | a service is taken out of the list in place |
| `Probing.ServiceTakenOut` | managed_components/espressif__mdns/mdns_pcb.c:266-289 | the list without the service, in the same order; probing ends with the last one unless addresses are probed |
| `Probing.Block.PcbAnnounce` | managed_components/espressif__mdns/mdns_pcb.c:43-84 | announcing in each of the states, duplicates counting as probing |
| `Probing.Block.PcbEnable` | managed_components/espressif__mdns/mdns_pcb.c:172-181 | enabling an interface starts probing, with the same report |
| `Probing.Block.PcbRevive` | managed_components/espressif__mdns/mdns_pcb.c:161-164 | the other interface of a disabled one is enabled again if it was a duplicate |
| `Probing.Block.PcbDisable` | managed_components/espressif__mdns/mdns_pcb.c:153-167 | disabling an interface clears its packets and its block |
| `Probing.Block.PcbSetDuplicate` | managed_components/espressif__mdns/mdns_pcb.c:186-204 | the same for a duplicate |
| `Probing.StoppedEmpty` | managed_components/espressif__mdns/mdns_pcb.c:153-204 | a pair whose interface was ready is stopped with nothing left to be sent or probed for |
| `Probing.Block.ProbePcb` | managed_components/espressif__mdns/mdns_pcb.c:445-461 | probing everywhere, keeping or dropping the old list, with the same report |
| `Probing.ProbeSafety` | managed_components/espressif__mdns/mdns_pcb.c:211-259 | in every run, a probing pair has at most one scheduled packet, its probe, and an announcement is created only from the third probe on since probing has (re)started |
| `Probing.AnnounceSafety` | managed_components/espressif__mdns/mdns_pcb.c:245-256 | in every run, a pair that announces starts to run exactly with the third packet sent since announcing has (re)started, and the two before are scheduled again; three announcements have been sent then if and only if no other packet was sent meanwhile |
| `Probing.AnnouncementScheduled` | managed_components/espressif__mdns/mdns_pcb.c:49-81 | announcing services (re)starts with a packet to send: the one that is scheduled, or a new announcement of a running pair |
| `Probing.ThreeAnnouncements` | managed_components/espressif__mdns/mdns_pcb.c:228-256 | with nothing in between, exactly three announcements follow the third probe |
| `Probing.AnswersCount` | managed_components/espressif__mdns/mdns_pcb.c:245-256 | where the condition fails: a run in which an answer is sent twice while announcing, and the pair runs after one announcement |
| `Probing.ShapedRun` | managed_components/espressif__mdns/mdns_pcb.c:27-34 | in every state of every run the length belongs to the list, which is all that the functions above require |
| `Probing.RestartUnion` | managed_components/espressif__mdns/mdns_pcb.c:339-424 | a restart leaves a list without duplicates, which holds exactly the old and the new services if and only if they are fewer than 256, one scheduled probe, and addresses probed if they were or are asked for |
| `Probing.InitProbeWithoutName` | managed_components/espressif__mdns/mdns_pcb.c:394-397 | of the function alone: without a host name, the list invariant is kept if and only if nothing is being probed |
| `Probing.CopyOutside` | managed_components/espressif__mdns/mdns_pcb.c:359-362 | of the function alone: after such a call the next copy stays inside its allocation if and only if no list was left behind |
| `Probing.ListStep` | managed_components/espressif__mdns/mdns_pcb.c:43-461 | of a list in order: a step, given few enough services and a host name if the pair is busy, keeps it in order if and only if it does not stop a busy pair whose interface is not ready or take back a busy duplicate |
| `Probing.ListSafety` | managed_components/espressif__mdns/mdns_pcb.c:43-461 | for every run in which a host name, once there, stays, and with fewer than 256 services on the host: in all states the list is null and empty outside the states that count as probing and has no duplicates, if and only if no step leaves it behind in this way; and then no copy leaves its allocation |
| `Probing.AbandonedList` | managed_components/espressif__mdns/mdns_pcb.c:157-166 | the exception occurs: a run that leaves a list behind in a pair that is off, and the start after which the copy leaves its allocation |
| `Pbkdf2.Increment` | managed_components/espressif__esp_secure_cert_mgr/srcs/esp_secure_cert_crypto.c:109-113 | the four octets count up, most significant first |
| `Pbkdf2.DeriveBlock` | managed_components/espressif__esp_secure_cert_mgr/srcs/esp_secure_cert_crypto.c:78-102 | the exclusive or of the iterated hashes of one block, as KeyBits tells |
| `Pbkdf2.DeriveKey` | managed_components/espressif__esp_secure_cert_mgr/srcs/esp_secure_cert_crypto.c:56-124 | the derived key, for every salt, iteration count and length; failure exactly if a call of the hash that is needed fails |
| `Pbkdf2.KeyBits` | managed_components/espressif__esp_secure_cert_mgr/srcs/esp_secure_cert_crypto.c:78-113 | what the derived key is: block b comes from a chain of as many digests as there are iterations, the first of the salt and four octets that stand for b + 1, each other one of the one before, and a bit is set exactly if it is set in an odd number of them |
| `CivilDate.DaysClosed` | managed_components/espressif__esp_daylight/src/esp_daylight.c:26-34 | the era arithmetic is the closed form of the proleptic Gregorian calendar |
| `CivilDate.Epoch` | managed_components/espressif__esp_daylight/src/esp_daylight.c:26-34 | 1970-01-01 is day 0 |
| `CivilDate.SuccessorIsNext` | managed_components/espressif__esp_daylight/src/esp_daylight.c:26-34 | the next day of the calendar has the next number, in every year |
| `CivilDate.StrictlyMonotone` | managed_components/espressif__esp_daylight/src/esp_daylight.c:26-34 | later dates have greater numbers |
| `CivilDate.MidnightsApart` | managed_components/espressif__esp_daylight/src/esp_daylight.c:39-42 | midnights of different dates are whole days apart |
| `CivilDate.DayOfYear` | managed_components/espressif__esp_daylight/src/esp_daylight.c:56-69 | the loop computes the distance from the first of January plus one |
| `CivilDate.NoOverflow` | managed_components/espressif__esp_daylight/src/esp_daylight.c:26-34 | no intermediate result leaves 32 bits for years up to 5 800 000 either side |

## Left out

- DnsRoundTrip.RoundTrip: names of up to four labels; the names with `_sub` that subtypes are announced under are not
  covered.
- Probing.ListSafety: fewer than 256 services on the host, because the length of the list is kept in eight bits.
- Collisions.CheckTxtCollision: the comparison of equally long data that do not fit a packet, which no packet can
  bring.
- Pbkdf2.DeriveKey: memory suffices, and keys are shorter than 2^32 bytes, so that the block index does not wrap.
- `qrcodegen_encodeText`, `qrcodegen_encodeBinary`, `qrcodegen_makeBytes` and `esp_qrcode_print_console`.
- The contents of mDNS packets beyond names and TXT data, the body of `mdns_parse_packet`, querier, browser and
  console.
- The two interfaces of a duplicate pair influence each other only through steps of their own blocks.
- The delays after which `mdns_priv_pcb_schedule_tx_packet` and `init_probe_new_service` schedule packets.
- Failing allocations, except where a property names them.
- Sunrise and sunset, schedules, and the rest of the certificate manager.
